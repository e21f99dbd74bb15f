/** The three append-only list models the view reads: UsersModel,
    MessageListModel and ChatsModel (src/storage.h:50-166,
    src/storage.cpp:193-352). */
module Models {
  import opened Records
  import opened Entities

  /** What a data() read hands back to the view, in place of a QVariant.
      Invalid is the empty QVariant() returned for a bad row or role. */
  datatype Variant =
    | Invalid
    | VString(s: string)
    | VInt(n: int)
    | VStringList(items: seq<string>)
    | VUser(user: User?)
    | VUserTable(users: map<string, User?>)
    | VMessages(model: MessageListModel?)

  /** The (first, last) pair passed to beginInsertRows; Qt reads last as inclusive. */
  datatype InsertRange = InsertRange(first: int, last: int)

  /** The range every append announces: first is the old row count and last is
      old count + added, so the inclusive range names one row more than is added.
      Each append method also states that its announced last row reads as empty
      afterwards: it is the row count, one past the last row. */
  function Announced(count: nat, added: nat): (r: InsertRange)
    ensures r.first == count
    ensures r.last - r.first + 1 == added + 1
    ensures r.last == count + added
  {
    InsertRange(count, count + added)
  }

  // ===================================================================== users

  class UsersModel {
    static const UserObject := 0
    static const FieldsCount := 1

    var users: seq<User?>
    /** Every beginInsertRows call, in order. */
    ghost var inserts: seq<InsertRange>

    constructor ()
      ensures users == [] && inserts == []
    {
      users, inserts := [], [];
    }

    /** rowCount: one row per entry of the backing list. */
    function RowCount(): (n: nat)
      reads this
      ensures n == |users|
    {
      |users|
    }

    /** Role names: the roles are exactly 0 .. FieldsCount - 1. */
    static function RoleNames(): (names: map<int, string>)
      ensures forall role :: role in names <==> 0 <= role < FieldsCount
      ensures names[UserObject] == "UserObject"
    {
      map[UserObject := "UserObject"]
    }

    /** The view's read: the user pointer for row and UserObject, otherwise empty. */
    function Data(row: int, role: int): (v: Variant)
      reads this
      ensures v == Invalid <==> !(0 <= row < RowCount()) || role != UserObject
      ensures v != Invalid ==> v == VUser(users[row])
    {
      if row >= |users| || row < 0 then Invalid
      else if role == UserObject then VUser(users[row])
      else Invalid
    }

    method AddUser(user: User?)
      modifies this
      ensures users == old(users) + [user]
      ensures RowCount() == old(RowCount()) + 1
      ensures Data(old(RowCount()), UserObject) == VUser(user)
      ensures inserts == old(inserts) + [Announced(old(RowCount()), 1)]
      ensures inserts[|inserts| - 1].last == RowCount()
      ensures forall role :: Data(RowCount(), role) == Invalid
    {
      inserts := inserts + [Announced(|users|, 1)];
      users := users + [user];
    }

    /** Build one User per element of usersData, in order, and append them all.
        An element that is not an object builds a User from the empty record. */
    method AddUsers(usersData: seq<Value>)
      modifies this
      ensures |users| == old(|users|) + |usersData|
      ensures users[..old(|users|)] == old(users)
      ensures forall k | old(|users|) <= k < |users| ::
                users[k] != null && fresh(users[k])
                && users[k].BuiltFrom(JsonObject(usersData[k - old(|users|)]))
      ensures inserts == old(inserts) + [Announced(old(|users|), |usersData|)]
      ensures inserts[|inserts| - 1].last == RowCount()
      ensures forall role :: Data(RowCount(), role) == Invalid
    {
      inserts := inserts + [Announced(|users|, |usersData|)];
      var n := |users|;
      for i := 0 to |usersData|
        invariant |users| == n + i
        invariant users[..n] == old(users)
        invariant inserts == old(inserts) + [Announced(n, |usersData|)]
        invariant forall k | n <= k < |users| ::
                    users[k] != null && fresh(users[k])
                    && users[k].BuiltFrom(JsonObject(usersData[k - n]))
      {
        var user := new User(JsonObject(usersData[i]));
        users := users + [user];
      }
    }
  }

  // ================================================================== messages

  class MessageListModel {
    static const Text := 0
    /** MessageFields::User */
    static const UserRole := 1
    static const Time := 2
    static const Attachments := 3
    static const MessageFieldCount := 4

    var messages: seq<Message>
    ghost var inserts: seq<InsertRange>

    constructor ()
      ensures messages == [] && inserts == []
    {
      messages, inserts := [], [];
    }

    /** rowCount: one row per entry of the backing list. */
    function RowCount(): (n: nat)
      reads this
      ensures n == |messages|
    {
      |messages|
    }

    /** Role names: the roles are exactly 0 .. MessageFieldCount - 1, each named. */
    static function RoleNames(): (names: map<int, string>)
      ensures forall role :: role in names <==> 0 <= role < MessageFieldCount
      ensures names[Text] == "Text" && names[UserRole] == "User"
      ensures names[Time] == "Time" && names[Attachments] == "Attachments"
    {
      map[Text := "Text", UserRole := "User", Time := "Time", Attachments := "Attachments"]
    }

    /** One field of a message; empty for a role outside the table. */
    static function Field(m: Message, role: int): (v: Variant)
      ensures v == Invalid <==> !(0 <= role < MessageFieldCount)
      ensures role == Text ==> v == VString(m.text)
      ensures role == UserRole ==> v == VUser(m.user)
      ensures role == Time ==> v == VString(m.time)
      ensures role == Attachments ==> v == VStringList(m.attachments)
    {
      if role == Text then VString(m.text)
      else if role == UserRole then VUser(m.user)
      else if role == Time then VString(m.time)
      else if role == Attachments then VStringList(m.attachments)
      else Invalid
    }

    function Data(row: int, role: int): (v: Variant)
      reads this
      ensures v == Invalid <==> !(0 <= row < RowCount()) || !(0 <= role < MessageFieldCount)
      ensures 0 <= row < RowCount() ==> v == Field(messages[row], role)
    {
      if row >= |messages| || row < 0 then Invalid
      else Field(messages[row], role)
    }

    method AddMessage(message: Message)
      modifies this
      ensures messages == old(messages) + [message]
      ensures RowCount() == old(RowCount()) + 1
      ensures forall role :: Data(old(RowCount()), role) == Field(message, role)
      ensures inserts == old(inserts) + [Announced(old(RowCount()), 1)]
      ensures inserts[|inserts| - 1].last == RowCount()
      ensures forall role :: Data(RowCount(), role) == Invalid
    {
      inserts := inserts + [Announced(|messages|, 1)];
      messages := messages + [message];
    }
  }

  // ===================================================================== chats

  /** ChatsModel::Chat. chatType stands for the ChatType field as the int the
      Type role hands out (Channel 0, Group 1, Conversation 2 when set). The
      constructor never sets chatType or messagesModel, so they may hold any
      value; membersModel starts as an empty table. */
  datatype Chat = Chat(
    id: string,
    presence: string,
    chatType: int,
    name: string,
    isOpen: bool,
    lastReadId: string,
    unreadCount: int,
    membersModel: map<string, User?>,
    messagesModel: MessageListModel?)

  /** ChatsModel::Chat::Chat: every field defaults silently. The constructor
      leaves chatType and messagesModel uninitialised; whatever they hold is
      passed in as unsetType and unsetModel and nothing is promised about it. */
  function ChatOf(data: Record, unsetType: int, unsetModel: MessageListModel?): (c: Chat)
    ensures Get(data, "id").Str? ==> c.id == Get(data, "id").s
    ensures !Get(data, "id").Str? ==> c.id == ""
    ensures Get(data, "name").Str? ==> c.name == Get(data, "name").s
    ensures !Get(data, "name").Str? ==> c.name == ""
    ensures c.presence == "none"
    ensures c.isOpen <==> Get(data, "is_member") == Bool(true)
    ensures Get(data, "last_read").Str? ==> c.lastReadId == Get(data, "last_read").s
    ensures !Get(data, "last_read").Str? ==> c.lastReadId == ""
    ensures Get(data, "unread_count_display").Number? && IsInt32(Get(data, "unread_count_display").n) ==>
              c.unreadCount == Get(data, "unread_count_display").n
    ensures !(Get(data, "unread_count_display").Number? && IsInt32(Get(data, "unread_count_display").n)) ==>
              c.unreadCount == 0
    ensures IsInt32(c.unreadCount)
    ensures c.membersModel == map[]
  {
    Chat(
      id := JsonString(Get(data, "id")),
      presence := "none",
      chatType := unsetType,
      name := JsonString(Get(data, "name")),
      isOpen := JsonBool(Get(data, "is_member")),
      lastReadId := JsonString(Get(data, "last_read")),
      unreadCount := JsonInt(Get(data, "unread_count_display")),
      membersModel := map[],
      messagesModel := unsetModel)
  }

  /** A chat built from an empty record keeps the declared defaults. */
  lemma ChatDefaults(t: int, m: MessageListModel?)
    ensures var c := ChatOf(map[], t, m);
      c.id == "" && c.name == "" && !c.isOpen && c.unreadCount == 0 && c.lastReadId == ""
  {
  }

  /** A channel record as the server sends it: its unread count and membership come through. */
  lemma ChatFromChannelRecord(t: int, m: MessageListModel?)
    ensures var c := ChatOf(map["id" := Str("C1"), "name" := Str("general"),
                                "is_member" := Bool(true), "unread_count_display" := Number(3)], t, m);
      c.id == "C1" && c.name == "general" && c.isOpen && c.unreadCount == 3 && c.presence == "none"
  {
  }

  class ChatsModel {
    static const Id := 0
    static const Type := 1
    static const Name := 2
    static const IsOpen := 3
    static const LastReadId := 4
    static const UnreadCount := 5
    static const MembersModel := 6
    static const MessagesModel := 7
    static const WorkspaceFieldsCount := 8

    var chats: seq<Chat>
    ghost var inserts: seq<InsertRange>

    constructor ()
      ensures chats == [] && inserts == []
    {
      chats, inserts := [], [];
    }

    /** rowCount: one row per entry of the backing list. */
    function RowCount(): (n: nat)
      reads this
      ensures n == |chats|
    {
      |chats|
    }

    /** Role names: the roles are exactly 0 .. WorkspaceFieldsCount - 1, each named. */
    static function RoleNames(): (names: map<int, string>)
      ensures forall role :: role in names <==> 0 <= role < WorkspaceFieldsCount
      ensures names[Id] == "Id" && names[Type] == "Type" && names[Name] == "Name"
      ensures names[IsOpen] == "IsOpen" && names[LastReadId] == "LastReadId"
      ensures names[UnreadCount] == "UnreadCount" && names[MembersModel] == "MembersModel"
      ensures names[MessagesModel] == "MessagesModel"
    {
      map[Id := "Id", Type := "Type", Name := "Name", IsOpen := "IsOpen",
          LastReadId := "LastReadId", UnreadCount := "UnreadCount",
          MembersModel := "MembersModel", MessagesModel := "MessagesModel"]
    }

    /** One field of a chat; empty for a role outside the table. The IsOpen
        role answers with the chat's name, not its open flag. */
    static function Field(c: Chat, role: int): (v: Variant)
      ensures v == Invalid <==> !(0 <= role < WorkspaceFieldsCount)
      ensures role == Id ==> v == VString(c.id)
      ensures role == Type ==> v == VInt(c.chatType)
      ensures role == Name ==> v == VString(c.name)
      ensures role == IsOpen ==> v == VString(c.name)
      ensures role == LastReadId ==> v == VString(c.lastReadId)
      ensures role == UnreadCount ==> v == VInt(c.unreadCount)
      ensures role == MembersModel ==> v == VUserTable(c.membersModel)
      ensures role == MessagesModel ==> v == VMessages(c.messagesModel)
    {
      if role == Id then VString(c.id)
      else if role == Type then VInt(c.chatType)
      else if role == Name then VString(c.name)
      else if role == IsOpen then VString(c.name)
      else if role == LastReadId then VString(c.lastReadId)
      else if role == UnreadCount then VInt(c.unreadCount)
      else if role == MembersModel then VUserTable(c.membersModel)
      else if role == MessagesModel then VMessages(c.messagesModel)
      else Invalid
    }

    function Data(row: int, role: int): (v: Variant)
      reads this
      ensures v == Invalid <==> !(0 <= row < RowCount()) || !(0 <= role < WorkspaceFieldsCount)
      ensures 0 <= row < RowCount() ==> v == Field(chats[row], role)
    {
      if row >= |chats| || row < 0 then Invalid
      else Field(chats[row], role)
    }

    /** The IsOpen read never yields the open flag: it is the Name read again. */
    lemma IsOpenReadsName(row: int)
      ensures Data(row, IsOpen) == Data(row, Name)
      ensures Data(row, IsOpen) == Invalid || Data(row, IsOpen).VString?
    {
    }

    method AddChat(chat: Chat)
      modifies this
      ensures chats == old(chats) + [chat]
      ensures RowCount() == old(RowCount()) + 1
      ensures forall role :: Data(old(RowCount()), role) == Field(chat, role)
      ensures inserts == old(inserts) + [Announced(old(RowCount()), 1)]
      ensures inserts[|inserts| - 1].last == RowCount()
      ensures forall role :: Data(RowCount(), role) == Invalid
    {
      inserts := inserts + [Announced(|chats|, 1)];
      chats := chats + [chat];
    }
  }
}

# slaq model layer in Dafny

A Dafny model of the in-memory model layer of the slaq desktop Slack client
(`src/storage.h`, `src/storage.cpp`). It covers three parts.

- **Storage**: an id-keyed cache of raw user, channel and per-channel message
  records, held in three independent maps plus a `userList` snapshot. It is
  modelled as the class `Store.Storage`. There is no link between the maps, so
  a message list may belong to a channel that was never saved.
- **Entities**: `User` is a class. It is built from a JSON record and has a
  change-only `SetPresence` whose `presenceChanged` emissions are counted in a
  ghost field. `Message` is a record, and `ChatsModel::Chat` is the datatype
  `Models.Chat`, built by `Models.ChatOf`.
- **List models**: `UsersModel`, `MessageListModel` and `ChatsModel` are
  append-only classes over a `seq`. Each has a `RowCount` (the length of the
  backing list), a `Data(row, role)` read that returns `Invalid` (the empty
  `QVariant`) for a bad row or an unknown role, a role-name table, and append
  methods. Every `beginInsertRows(first, last)` call is recorded in a ghost log
  `inserts`.

JSON values and `QVariant` values are one datatype, `Records.Value`. The two
conversion families are kept apart:

- `QJsonValue` conversions, used by `User` and `Chat`, return a fixed default
  for a value of the wrong kind. A string becomes `""`, a bool `false`, an int
  `0` (also when the number does not fit a 32-bit `int`), and an object the
  empty object.
- `QVariant::toString`, used by `Storage` for its keys, converts numbers to
  decimal and booleans to `"true"`/`"false"`. Null, lists and maps give `""`.
  A record with no `"id"` is therefore filed under the empty key.

`QMap::values()` lists values in ascending key order. The model keeps each
map's keys as a sorted sequence (`userIds`, `channelIds`, ordered by
`KeyOrder.Less`), and `Users()`/`Channels()` return the values in that order.

Three behaviours of the code are modelled as written:

- Every append announces the range `(oldCount, oldCount + added)`. Qt reads
  `last` as inclusive, so the announced range names one row more than is
  appended (`Models.Announced`).
- `ChatsModel`'s `IsOpen` role answers with the chat's name
  (`Models.ChatsModel.IsOpenReadsName`).
- `ChatsModel::Chat::Chat` never sets `type` or `messagesModel`. `ChatOf`
  takes whatever those uninitialised fields hold as parameters and promises
  nothing about them. `type` is kept as a plain `int`, so the Type role may
  hand out any integer, not only the three `ChatType` enumerators.

The first two look like defects; the model still follows the code as written.

## Model

| member | source | states |
|---|---|---|
| `Records.VariantString` | src/storage.cpp:8-14 | A string id is its own key. A number keys under a non-empty decimal string: digits only, after one leading '-' exactly when negative, reading back as that number. A bool keys under "true"/"false", and null, lists and maps under "" |
| `Records.Digits` | src/storage.cpp:8 | The decimal digits of a natural number are non-empty, all '0'..'9', and read back as the number |
| `Records.Decimal` | src/storage.cpp:8 | The decimal form of an integer is digits only when it is non-negative, and '-' followed by digits when it is negative. It reads back as the integer |
| `Records.NumberKeysDistinct` | src/storage.cpp:8 | Distinct numeric ids are filed under distinct keys |
| `KeyOrder.LessIrreflexive` | src/storage.cpp:9 | No key sorts before itself in QMap's key order |
| `KeyOrder.LessAsymmetric` | src/storage.cpp:9 | If key a sorts before b then b does not sort before a |
| `KeyOrder.LessTransitive` | src/storage.cpp:9 | The key order is transitive |
| `KeyOrder.LessTotal` | src/storage.cpp:9 | Any two distinct keys are ordered one way or the other |
| `KeyOrder.SortedDistinct` | src/storage.cpp:9 | A strictly ascending key list never names the same key at two positions |
| `KeyOrder.SortedKeysDistinct` | src/storage.cpp:9 | A strictly ascending key list names as many distinct keys as it has entries |
| `KeyOrder.InsertKeepsSorted` | src/storage.cpp:8 | Inserting a key into the map's ascending key list keeps it ascending, adds exactly that key, and leaves a list that already holds it unchanged |
| `KeyOrder.ValuesOnePerKey` | src/storage.cpp:9 | values() taken in key order has exactly one entry per key, and every stored value appears in it |
| `Store.Storage.constructor` | src/storage.h:169-196 | A new Storage has three empty maps and an empty user snapshot. Its invariant Valid() also says each stored user and channel record sits under its own id key, the key that storage.cpp:8 and 24 insert it under |
| `Store.Storage.SaveUser` | src/storage.cpp:6-10 | Upserts the record under its id key (last write wins) and user(id) then returns it. Re-saving a record identical to the stored one leaves the map, key order and snapshot unchanged. Channels and channel messages are untouched |
| `Store.Storage.User` | src/storage.cpp:12-15 | Returns the record stored under the id's key, or the empty record for an id never saved |
| `Store.Storage.Users` | src/storage.cpp:17-20 | The snapshot has exactly one record per distinct saved id, in ascending id order, and holds every stored user record. Each record's own id key is the key at its position, so no two entries share an id |
| `Store.Storage.SaveChannel` | src/storage.cpp:22-25 | Upserts the record under its id key (last write wins) and channel(id) then returns it. Re-saving an identical record changes nothing. Users, snapshot and channel messages are untouched |
| `Store.Storage.Channel` | src/storage.cpp:27-30 | Returns the channel record stored under the id's key, or the empty record for an id never saved |
| `Store.Storage.Channels` | src/storage.cpp:32-35 | One record per distinct saved channel id, in ascending id order, holding every stored channel. Each record's own id key is the key at its position, so no two entries share an id |
| `Store.Storage.ChannelMessages` | src/storage.cpp:37-40 | Returns the list cached for the channel, or the empty list when none is cached |
| `Store.Storage.ChannelMessagesExist` | src/storage.cpp:42-45 | True exactly when a list is cached for the channel; when false, channelMessages is empty |
| `Store.Storage.SetChannelMessages` | src/storage.cpp:47-50 | Afterwards channelMessages(c) is the given list and channelMessagesExist(c) holds. Other channels' lists, users and channels are unchanged |
| `Store.Storage.AppendChannelMessage` | src/storage.cpp:52-57 | A channel with N cached messages then has N+1: the old list followed by the message (a channel with no entry gets the one-element list). Other channels, users and channels are unchanged |
| `Store.Storage.ClearChannelMessages` | src/storage.cpp:59-62 | Afterwards no channel has cached messages and every channelMessages is empty. Users, snapshot and channels are untouched |
| `Entities.PresenceOf` | src/storage.cpp:77-85 | Active exactly for "active", Away exactly for "away", Unknown for every other string |
| `Entities.User.constructor` | src/storage.cpp:64-92 | The id comes from "id". An empty or missing id stops construction with fullName and avatar empty and presence Unknown. Otherwise name, presence (via PresenceOf) and profile.image_512 are read. isBot stays false and no presence signal is emitted |
| `Entities.User.SetPresence` | src/storage.cpp:94-102 | Afterwards presence is p. Setting the current value emits no signal; setting a different value emits exactly one |
| `Models.Announced` | src/storage.cpp:228 | The announced insert range starts at the old row count and, read inclusively, spans added + 1 rows, one more than are appended |
| `Models.UsersModel.constructor` | src/storage.h:68 | A new model has an empty user list and has announced no insertions |
| `Models.UsersModel.RowCount` | src/storage.h:70 | The row count is the length of the backing user list |
| `Models.UsersModel.RoleNames` | src/storage.cpp:314-320 | The only role is UserObject = 0, so the roles are exactly 0 .. FieldsCount - 1 |
| `Models.UsersModel.Data` | src/storage.cpp:297-312 | Empty exactly when the row is out of range or the role is not UserObject; otherwise the user stored at that row |
| `Models.UsersModel.AddUser` | src/storage.cpp:322-327 | The user is appended last, the row count grows by one and earlier rows are unchanged. The announced range starts at the old count, and its last row is the new row count, a row that reads as empty for every role |
| `Models.UsersModel.AddUsers` | src/storage.cpp:329-339 | Appends one newly built User per input element in input order (a non-object builds from the empty record). Earlier rows are unchanged and one range (old count, old count + n) is announced. Its last row is the new row count, which reads as empty for every role |
| `Models.MessageListModel.constructor` | src/storage.cpp:193-195 | A new model has an empty message list and has announced no insertions |
| `Models.MessageListModel.RowCount` | src/storage.cpp:197-202 | The row count is the length of the backing message list |
| `Models.MessageListModel.RoleNames` | src/storage.cpp:234-242 | Text, User, Time and Attachments are exactly the roles 0 .. 3, and MessageFieldCount is 4 |
| `Models.MessageListModel.Field` | src/storage.cpp:211-223 | Each of the four roles reads its message field; any other role is empty |
| `Models.MessageListModel.Data` | src/storage.cpp:204-224 | Empty exactly when the row is out of range or the role unknown; otherwise the role's field of that row |
| `Models.MessageListModel.AddMessage` | src/storage.cpp:226-231 | The message is appended last, the row count grows by one, every role of the new last row reads the message's field. The announced range starts at the old count, and its last row is the new row count, which reads as empty for every role |
| `Models.ChatOf` | src/storage.cpp:341-352 | id, name and lastReadId are the record's strings or "". isOpen holds exactly when "is_member" is true. unreadCount is "unread_count_display" when that is an int, else 0. presence is "none" and the member table is empty |
| `Models.ChatDefaults` | src/storage.h:149-151 | A chat built from an empty record is closed, has unreadCount 0, and has empty id, name and lastReadId |
| `Models.ChatFromChannelRecord` | src/storage.cpp:341-352 | The channel record {id "C1", name "general", is_member true, unread_count_display 3} gives an open chat C1 with 3 unread messages and presence "none" |
| `Models.ChatsModel.constructor` | src/storage.h:156 | A new model has an empty chat list and has announced no insertions |
| `Models.ChatsModel.RowCount` | src/storage.h:158 | The row count is the length of the backing chat list |
| `Models.ChatsModel.RoleNames` | src/storage.cpp:275-288 | Id .. MessagesModel are exactly the roles 0 .. 7, each with its name, and WorkspaceFieldsCount is 8 |
| `Models.ChatsModel.Field` | src/storage.cpp:252-272 | Each of the eight roles reads its chat field (IsOpen reads the name, Type hands out the stored int unchanged); any other role is empty |
| `Models.ChatsModel.Data` | src/storage.cpp:244-273 | Empty exactly when the row is out of range or the role unknown; otherwise the role's field of that row |
| `Models.ChatsModel.IsOpenReadsName` | src/storage.cpp:259-260 | The IsOpen read equals the Name read, and is never anything but a string or empty |
| `Models.ChatsModel.AddChat` | src/storage.cpp:290-295 | The chat is appended last, the row count grows by one, every role of the new last row reads the chat's field. The announced range starts at the old count, and its last row is the new row count, which reads as empty for every role |

## Left out

- Models.ChatOf: promises nothing about `chatType` and `messagesModel`, because the C++ constructor leaves both uninitialised.
- KeyOrder.Less: compares Dafny characters (Unicode scalar values). QString compares UTF-16 code units, so the two orders differ only for characters outside the Basic Multilingual Plane.
- Floating-point JSON numbers are not modelled. Numbers are integral, so `toInt` and `QVariant::toString` are modelled only for whole numbers.
- Records.VariantString: a number is keyed by its plain decimal digits. When a JSON number reaches a `QVariantMap` as a `double`, `QVariant::toString` uses the shortest `'g'` form, so a whole-number id such as 1000000 would key as "1e+06". That exponent spelling of double-typed ids is not modelled. These files do not show where the maps come from.
- Diagnostic logging (`qWarning`) has no effect on state and is not modelled.
- The `QUrl` validity check in the User constructor only logs. The avatar is kept as the string the URL is built from.
- `endInsertRows` carries no data. Only the `beginInsertRows` range is recorded.
- `QPointer` auto-nulling when a User is destroyed, and QObject parent ownership (`new User(userData, this)`), depend on Qt object lifetime. References are plain nullable object references with no liveness.
- Fields and declarations never set or never used are not modelled: `Storage::m_users`, `User::m_username`, `Message::type`, and the duplicate `UsersModel::Presence` enum.
- `User::presence()` and `User::userId()` are plain field reads (`CurrentPresence`, `userId`).
- The commented-out `Chat` class code is not compiled and is not modelled.
- `src/main.cpp` is not part of this model. It holds application bootstrap: the QML engine, web view, singleton registration and network factory.

/** Storage: the id-keyed cache of raw user, channel and per-channel message
    records (src/storage.h:169-196, src/storage.cpp:6-62). */
module Store {
  import opened Records
  import opened KeyOrder

  class Storage {
    /** userMap and channelMap are QVariantMaps: each keeps its keys in
        ascending order, which userIds and channelIds record. */
    var userMap: map<string, Record>
    var userIds: seq<string>
    var channelMap: map<string, Record>
    var channelIds: seq<string>
    var channelMessageMap: map<string, seq<Value>>
    /** The snapshot of userMap's values, rebuilt by every SaveUser. */
    var userList: seq<Record>

    ghost predicate Valid()
      reads this
    {
      && Sorted(userIds) && KeySet(userIds) == userMap.Keys
      && Sorted(channelIds) && KeySet(channelIds) == channelMap.Keys
      && userList == ValuesIn(userIds, userMap)
      && (forall k | k in userMap :: IdKey(userMap[k]) == k)
      && (forall k | k in channelMap :: IdKey(channelMap[k]) == k)
    }

    constructor ()
      ensures Valid()
      ensures userMap == map[] && channelMap == map[] && channelMessageMap == map[]
      ensures userList == []
    {
      userMap, userIds := map[], [];
      channelMap, channelIds := map[], [];
      channelMessageMap := map[];
      userList := [];
    }

    // ----------------------------------------------------------------- users

    /** The user record saved under id, or the empty record if none was. */
    function User(id: Value): (r: Record)
      reads this
      ensures VariantString(id) in userMap ==> r == userMap[VariantString(id)]
      ensures VariantString(id) !in userMap ==> r == map[]
    {
      var key := VariantString(id);
      if key in userMap then userMap[key] else map[]
    }

    /** The snapshot: one record per distinct saved id, in ascending id order,
        each record filed under its own id. */
    function Users(): (r: seq<Record>)
      reads this
      requires Valid()
      ensures |r| == |userMap| == |userIds|
      ensures forall i | 0 <= i < |r| :: userIds[i] in userMap && r[i] == userMap[userIds[i]]
      ensures forall rec :: rec in r <==> rec in userMap.Values
      ensures forall i | 0 <= i < |r| :: IdKey(r[i]) == userIds[i]
      ensures forall i, j | 0 <= i < j < |r| :: IdKey(r[i]) != IdKey(r[j])
    {
      ValuesOnePerKey(userIds, userMap);
      SortedDistinct(userIds);
      userList
    }

    /** Upsert under the record's id; the last write wins and the snapshot is rebuilt. */
    method SaveUser(user: Record)
      requires Valid()
      modifies this
      ensures Valid()
      ensures userMap == old(userMap)[IdKey(user) := user]
      ensures User(Get(user, "id")) == user
      ensures old(IdKey(user) in userMap && userMap[IdKey(user)] == user) ==>
                userMap == old(userMap) && userIds == old(userIds) && userList == old(userList)
      ensures channelMap == old(channelMap) && channelIds == old(channelIds)
      ensures channelMessageMap == old(channelMessageMap)
    {
      var key := IdKey(user);
      InsertKeepsSorted(userIds, key);
      userMap := userMap[key := user];
      userIds := Insert(userIds, key);
      userList := ValuesIn(userIds, userMap);
    }

    // -------------------------------------------------------------- channels

    /** The channel record saved under id, or the empty record if none was. */
    function Channel(id: Value): (r: Record)
      reads this
      ensures VariantString(id) in channelMap ==> r == channelMap[VariantString(id)]
      ensures VariantString(id) !in channelMap ==> r == map[]
    {
      var key := VariantString(id);
      if key in channelMap then channelMap[key] else map[]
    }

    /** channelMap's values: one record per distinct saved id, in ascending id order. */
    function Channels(): (r: seq<Record>)
      reads this
      requires Valid()
      ensures |r| == |channelMap| == |channelIds|
      ensures forall i | 0 <= i < |r| :: channelIds[i] in channelMap && r[i] == channelMap[channelIds[i]]
      ensures forall rec :: rec in r <==> rec in channelMap.Values
      ensures forall i | 0 <= i < |r| :: IdKey(r[i]) == channelIds[i]
      ensures forall i, j | 0 <= i < j < |r| :: IdKey(r[i]) != IdKey(r[j])
    {
      ValuesOnePerKey(channelIds, channelMap);
      SortedDistinct(channelIds);
      ValuesIn(channelIds, channelMap)
    }

    /** Upsert under the record's id; the last write wins. */
    method SaveChannel(channel: Record)
      requires Valid()
      modifies this
      ensures Valid()
      ensures channelMap == old(channelMap)[IdKey(channel) := channel]
      ensures Channel(Get(channel, "id")) == channel
      ensures old(IdKey(channel) in channelMap && channelMap[IdKey(channel)] == channel) ==>
                channelMap == old(channelMap) && channelIds == old(channelIds)
      ensures userMap == old(userMap) && userIds == old(userIds) && userList == old(userList)
      ensures channelMessageMap == old(channelMessageMap)
    {
      var key := IdKey(channel);
      InsertKeepsSorted(channelIds, key);
      channelMap := channelMap[key := channel];
      channelIds := Insert(channelIds, key);
    }

    // ------------------------------------------------------ channel messages

    /** The message list cached for a channel, or the empty list. */
    function ChannelMessages(channelId: Value): (r: seq<Value>)
      reads this
      ensures VariantString(channelId) in channelMessageMap ==> r == channelMessageMap[VariantString(channelId)]
      ensures VariantString(channelId) !in channelMessageMap ==> r == []
    {
      var key := VariantString(channelId);
      if key in channelMessageMap then channelMessageMap[key] else []
    }

    /** Whether a message list is cached for the channel (even an empty one). */
    function ChannelMessagesExist(channelId: Value): (b: bool)
      reads this
      ensures b <==> VariantString(channelId) in channelMessageMap
      ensures !b ==> ChannelMessages(channelId) == []
    {
      VariantString(channelId) in channelMessageMap
    }

    method SetChannelMessages(channelId: Value, messages: seq<Value>)
      modifies this
      ensures channelMessageMap == old(channelMessageMap)[VariantString(channelId) := messages]
      ensures ChannelMessages(channelId) == messages && ChannelMessagesExist(channelId)
      ensures userMap == old(userMap) && userIds == old(userIds) && userList == old(userList)
      ensures channelMap == old(channelMap) && channelIds == old(channelIds)
    {
      channelMessageMap := channelMessageMap[VariantString(channelId) := messages];
    }

    /** Read the list, append the message, store the whole list back. */
    method AppendChannelMessage(channelId: Value, message: Record)
      modifies this
      ensures ChannelMessages(channelId) == old(ChannelMessages(channelId)) + [Object(message)]
      ensures |ChannelMessages(channelId)| == |old(ChannelMessages(channelId))| + 1
      ensures ChannelMessagesExist(channelId)
      ensures channelMessageMap == old(channelMessageMap)[VariantString(channelId) := ChannelMessages(channelId)]
      ensures userMap == old(userMap) && userIds == old(userIds) && userList == old(userList)
      ensures channelMap == old(channelMap) && channelIds == old(channelIds)
    {
      var messages := ChannelMessages(channelId);
      messages := messages + [Object(message)];
      SetChannelMessages(channelId, messages);
    }

    /** Drop every cached message list; users and channels stay. */
    method ClearChannelMessages()
      modifies this
      ensures channelMessageMap == map[]
      ensures forall c :: !ChannelMessagesExist(c) && ChannelMessages(c) == []
      ensures userMap == old(userMap) && userIds == old(userIds) && userList == old(userList)
      ensures channelMap == old(channelMap) && channelIds == old(channelIds)
    {
      channelMessageMap := map[];
    }
  }
}

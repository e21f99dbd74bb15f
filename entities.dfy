/** The domain entities: User (src/storage.h:12-48, src/storage.cpp:64-107)
    and the Message record (src/storage.h:81-87). */
module Entities {
  import opened Records

  /** User::Presence: exactly three values. */
  datatype Presence = Unknown | Active | Away

  /** The presence a status string stands for: only the literals "active" and
      "away" are recognised. */
  function PresenceOf(status: string): (p: Presence)
    ensures p == Active <==> status == "active"
    ensures p == Away <==> status == "away"
    ensures p == Unknown <==> status != "active" && status != "away"
  {
    if status == "active" then Active
    else if status == "away" then Away
    else Unknown
  }

  class User {
    var userId: string
    var fullName: string
    /** The avatar as the string QUrl was built from. */
    var avatarUrl: string
    var isBot: bool
    var presence: Presence
    /** How many times presenceChanged has been emitted. */
    ghost var presenceChanges: nat

    /** What a User holds right after being built from data: an empty id stops
        construction with everything else at its default; otherwise name,
        presence and avatar come from the record. isBot is never read. */
    ghost predicate BuiltFrom(data: Record)
      reads this
    {
      && userId == JsonString(Get(data, "id"))
      && !isBot
      && presenceChanges == 0
      && if userId == "" then
           fullName == "" && avatarUrl == "" && presence == Unknown
         else
           && fullName == JsonString(Get(data, "name"))
           && presence == PresenceOf(JsonString(Get(data, "presence")))
           && avatarUrl == JsonString(Get(JsonObject(Get(data, "profile")), "image_512"))
    }

    constructor (data: Record)
      ensures BuiltFrom(data)
    {
      userId := JsonString(Get(data, "id"));
      fullName, avatarUrl, isBot, presence := "", "", false, Unknown;
      presenceChanges := 0;
      new;
      if userId == "" {
        return;
      }
      fullName := JsonString(Get(data, "name"));
      presence := PresenceOf(JsonString(Get(data, "presence")));
      var profile := JsonObject(Get(data, "profile"));
      avatarUrl := JsonString(Get(profile, "image_512"));
    }

    function CurrentPresence(): Presence
      reads this
    {
      presence
    }

    /** A change-only update: the same presence again changes nothing and emits
        nothing; a different one is stored and emits presenceChanged once. */
    method SetPresence(p: Presence)
      modifies this`presence, this`presenceChanges
      ensures CurrentPresence() == p
      ensures old(presence) == p ==> presenceChanges == old(presenceChanges)
      ensures old(presence) != p ==> presenceChanges == old(presenceChanges) + 1
    {
      if p == presence {
        return;
      }
      presence := p;
      presenceChanges := presenceChanges + 1;
    }
  }

  /** A chat message; the user is a non-owning reference that may be null. */
  datatype Message = Message(text: string, user: User?, time: string, attachments: seq<string>)
}

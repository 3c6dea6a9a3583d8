/**
 * The cache layer of `MongoDBHandler`: a settings cache, a users cache and a
 * last-access table shared by both, in front of two collections.  The
 * collections are outside the model: every reply they give (a found document,
 * an acknowledged update, a failed insert) is a parameter, and so is the clock.
 *
 * Each operation is given twice: as a pure step function on a `Caches` value
 * (what the caches become and what the caller gets), and as a method of the
 * `MongoDBHandler` class that updates its fields step by step and is proved to
 * agree with the step function.
 */
module MongoDB {
  import opened Wrappers
  import opened Documents
  import opened UpdateOps

  /** Seconds a settings entry may go unused before `cleanup_cache` drops it. */
  const CacheTtl: int := 300

  /** The number of settings entries `cleanup_cache` trims the cache down to. */
  const MaxCacheSize: nat := 10000

  datatype DbError =
    | ConnectionFailure             // a collection call raised (find, insert, update or delete)
    | UpdateRejected(cause: UpdateError)
    | InvalidDataType(dType: string)
    | MissingUserId                 // a fetched user document without a usable `_id`

  /** What `find_one` gave back. */
  datatype FindReply = FindFailed | Found(doc: Doc) | NotFound

  /** What `update_one` gave back. */
  datatype UpdateReply = UpdateFailed | Acknowledged(modifiedCount: nat)

  /** What `delete_one` gave back. */
  datatype DeleteReply = DeleteFailed | DeleteAcknowledged(deletedCount: nat)

  /** What `find(criteria)` gave back before `skip` and `limit`: every match, in the collection's order. */
  datatype FindManyReply = FindManyFailed | Matches(docs: seq<Doc>)

  /** The three class-level dictionaries. */
  datatype Caches = Caches(settings: map<int, Doc>, users: map<int, Doc>, lastAccess: map<int, int>)

  /** The caches after an operation, and what the operation returned or raised. */
  datatype Outcome<T> = Outcome(caches: Caches, result: Result<T, DbError>)

  /** Every cached entry has a last-access time. */
  predicate Consistent(c: Caches)
  {
    c.settings.Keys <= c.lastAccess.Keys && c.users.Keys <= c.lastAccess.Keys
  }

  // ---------------------------------------------------------------- the user template

  const FavouritePlaylist: Value :=
    VMap(map[
      "tracks" := VList([]),
      "perms" := VMap(map["read" := VList([]), "write" := VList([]), "remove" := VList([])]),
      "name" := VStr("Favourite"),
      "type" := VStr("playlist")])

  /** `_user_base`: its keys are also the only valid `d_type`s. */
  const UserBase: Doc :=
    map[
      "_id" := VInt(0),
      "playlist" := VMap(map["200" := FavouritePlaylist]),
      "history" := VList([]),
      "inbox" := VList([])]

  /** The new-user document as `get_user` builds it: the template is spread after `_id`, so its `_id` wins. */
  function NewUserDocAsWritten(userId: int): (r: Doc)
    ensures r.Keys == UserBase.Keys
  {
    map["_id" := VInt(userId)] + UserBase
  }

  /** The new-user document with the template's placeholder `_id` replaced by the user's id. */
  function NewUserDoc(userId: int): (r: Doc)
    ensures r.Keys == UserBase.Keys
    ensures r["_id"] == VInt(userId)
    ensures forall k :: k in UserBase && k != "_id" ==> r[k] == UserBase[k]
  {
    UserBase + map["_id" := VInt(userId)]
  }

  // ---------------------------------------------------------------- shared pieces

  /** The document a cache miss stores: the one found, or else a fresh one once it is inserted. */
  function Fetched(reply: FindReply, insertOk: bool, created: Doc): Result<Doc, DbError>
  {
    match reply
    case FindFailed => Failure(ConnectionFailure)
    case Found(d) =>
      if d != map[] then Success(d)
      else if insertOk then Success(created) else Failure(ConnectionFailure)
    case NotFound =>
      if insertOk then Success(created) else Failure(ConnectionFailure)
  }

  /**
   * Where `_update_db` applies the edits: the deep copy `update_settings`
   * passes (so the edits never reach the settings cache), or the live cached
   * user document `update_user` passes.
   */
  datatype Target = Detached(doc: Doc) | UserEntry

  predicate TargetPresent(c: Caches, target: Target, id: int)
  {
    target.UserEntry? ==> id in c.users
  }

  function TargetDoc(c: Caches, target: Target, id: int): Doc
    requires TargetPresent(c, target, id)
  {
    match target
    case Detached(d) => d
    case UserEntry => c.users[id]
  }

  /** The edited document lands in the cache only when the target is a live entry. */
  function WriteBack(c: Caches, target: Target, id: int, d: Doc): Caches
  {
    match target
    case Detached(_) => c
    case UserEntry => c.(users := c.users[id := d])
  }

  /** The rollback of a failed update: the id leaves both caches, its access time stays. */
  function Rollback(c: Caches, id: int): (r: Caches)
    ensures id !in r.settings && id !in r.users && r.lastAccess == c.lastAccess
  {
    c.(settings := c.settings - {id}, users := c.users - {id})
  }

  /** The edits under the update's `$set`, if it has one. */
  function SetOperand(data: Update): seq<Edit>
  {
    if data == [] then []
    else if data[0].0 == "$set" then data[0].1
    else SetOperand(data[1..])
  }

  /** A dict built from key/value pairs: a later pair for the same key wins. */
  function EditsToMap(edits: seq<Edit>): (r: Doc)
    ensures forall k :: k in r <==> exists i :: 0 <= i < |edits| && edits[i].0 == k
    decreases |edits|
  {
    if edits == [] then map[]
    else
      var last := edits[|edits| - 1];
      var init := EditsToMap(edits[..|edits| - 1]);
      assert forall i :: 0 <= i < |edits| - 1 ==> edits[..|edits| - 1][i] == edits[i];
      init[last.0 := last.1]
  }

  /** `{"_id": id, **data.get("$set", {})}`. */
  function UpsertDoc(id: int, data: Update): Doc
  {
    map["_id" := VInt(id)] + EditsToMap(SetOperand(data))
  }

  // ---------------------------------------------------------------- the operations as step functions

  /** `get_settings`: served from the cache unless it misses or a refresh is forced. */
  function GetSettingsStep(c: Caches, guildId: int, forceRefresh: bool, now: int, reply: FindReply, insertOk: bool): (o: Outcome<Doc>)
    ensures o.result.Success? ==> guildId in o.caches.settings && o.caches.settings[guildId] == o.result.value
    ensures o.result.Failure? ==> o.caches == c && o.result.error == ConnectionFailure
    ensures o.caches.users == c.users
  {
    if !forceRefresh && guildId in c.settings then Outcome(c, Success(c.settings[guildId]))
    else
      match Fetched(reply, insertOk, map["_id" := VInt(guildId)])
      case Failure(e) => Outcome(c, Failure(e))
      case Success(d) =>
        Outcome(c.(settings := c.settings[guildId := d], lastAccess := c.lastAccess[guildId := now]), Success(d))
  }

  /** `_update_db`: edit the target, then send the update; any failure rolls the id out of both caches. */
  function UpdateDbStep(c: Caches, target: Target, id: int, data: Update, now: int, reply: UpdateReply): (o: Outcome<bool>)
    requires TargetPresent(c, target, id)
  {
    match ApplyUpdate(TargetDoc(c, target, id), data)
    case Failure(e) => Outcome(Rollback(c, id), Failure(UpdateRejected(e)))
    case Success(d) =>
      var c1 := WriteBack(c, target, id, d);
      match reply
      case UpdateFailed => Outcome(Rollback(c1, id), Failure(ConnectionFailure))
      case Acknowledged(n) => Outcome(c1.(lastAccess := c1.lastAccess[id := now]), Success(n > 0))
  }

  /**
   * `update_settings`: the edits go to the copy `get_settings` returned, so
   * the cached settings keep their old contents even when the update succeeds.
   */
  function UpdateSettingsStep(c: Caches, guildId: int, data: Update, upsert: bool, now: int,
                              found: FindReply, insertOk: bool, reply: UpdateReply, upsertOk: bool): Outcome<bool>
  {
    var g := GetSettingsStep(c, guildId, false, now, found, insertOk);
    if g.result.Failure? then Outcome(g.caches, Failure(g.result.error))
    else
      var u := UpdateDbStep(g.caches, Detached(g.result.value), guildId, data, now, reply);
      if u.result == Success(false) && upsert then
        if upsertOk then Outcome(u.caches.(settings := u.caches.settings[guildId := UpsertDoc(guildId, data)]), Success(true))
        else Outcome(u.caches, Failure(ConnectionFailure))
      else u
  }

  /** `get_user`: load (creating the user when absent), then optionally select one field, filling it from the template. */
  function GetUserStep(c: Caches, userId: int, dType: Option<string>, forceRefresh: bool, now: int,
                       reply: FindReply, insertOk: bool): (o: Outcome<Value>)
    ensures o.result.Failure? && o.result.error == ConnectionFailure ==> o.caches == c
    ensures o.result.Success? ==> userId in o.caches.users
    ensures o.caches.settings == c.settings
  {
    var loaded :=
      if !forceRefresh && userId in c.users then Success(c)
      else
        match Fetched(reply, insertOk, NewUserDoc(userId))
        case Failure(e) => Failure(e)
        case Success(d) => Success(c.(users := c.users[userId := d], lastAccess := c.lastAccess[userId := now]));
    match loaded
    case Failure(e) => Outcome(c, Failure(e))
    case Success(c1) =>
      assert userId in c1.users;
      var user := c1.users[userId];
      if dType.None? || dType.value == "" then Outcome(c1, Success(VMap(user)))
      else if dType.value !in UserBase then Outcome(c1, Failure(InvalidDataType(dType.value)))
      else if dType.value in user then Outcome(c1, Success(user[dType.value]))
      else
        Outcome(c1.(users := c1.users[userId := user[dType.value := UserBase[dType.value]]]), Success(UserBase[dType.value]))
  }

  /** `update_user`: the edits go to the live cached user document. */
  function UpdateUserStep(c: Caches, userId: int, data: Update, upsert: bool, now: int,
                          found: FindReply, insertOk: bool, reply: UpdateReply, upsertOk: bool): Outcome<bool>
  {
    var g := GetUserStep(c, userId, None, false, now, found, insertOk);
    if g.result.Failure? then Outcome(g.caches, Failure(g.result.error))
    else
      var u := UpdateDbStep(g.caches, UserEntry, userId, data, now, reply);
      if u.result == Success(false) && upsert then
        if upsertOk then Outcome(u.caches.(users := u.caches.users[userId := UpsertDoc(userId, data)]), Success(true))
        else Outcome(u.caches, Failure(ConnectionFailure))
      else u
  }

  /** `delete_user`: only a deletion the collection confirms drops the cached user and its access time. */
  function DeleteUserStep(c: Caches, userId: int, reply: DeleteReply): Outcome<bool>
  {
    match reply
    case DeleteFailed => Outcome(c, Failure(ConnectionFailure))
    case DeleteAcknowledged(n) =>
      if n > 0 then Outcome(c.(users := c.users - {userId}, lastAccess := c.lastAccess - {userId}), Success(true))
      else Outcome(c, Success(false))
  }

  /** The cache key of a fetched user: its `_id`, when that is an integer. */
  function UserKey(d: Doc): Option<int>
  {
    if "_id" in d then AsInt(d["_id"]) else None
  }

  /** The matches the cursor yields after `.skip(skip)` and, when `limit` is truthy, `.limit(limit)`. */
  function Window(matches: seq<Doc>, skip: nat, limit: Option<nat>): (r: seq<Doc>)
    ensures skip <= |matches| ==> |r| <= |matches| - skip && forall i :: 0 <= i < |r| ==> r[i] == matches[skip + i]
    ensures skip >= |matches| ==> r == []
    ensures limit.Some? && limit.value > 0 ==> |r| == if skip >= |matches| then 0 else Min(limit.value, |matches| - skip)
    ensures (limit.None? || limit == Some(0)) ==> |r| == if skip >= |matches| then 0 else |matches| - skip
  {
    var rest := if skip <= |matches| then matches[skip..] else [];
    if limit.Some? && limit.value > 0 && limit.value < |rest| then rest[..limit.value] else rest
  }

  function Min(a: int, b: int): int { if a <= b then a else b }

  /** The caching loop of `get_users_by_criteria`: each user in turn, until one has no usable `_id`. */
  function CacheUsers(c: Caches, docs: seq<Doc>, now: int): (o: Outcome<seq<Doc>>)
    ensures o.caches.settings == c.settings
    decreases |docs|
  {
    if docs == [] then Outcome(c, Success([]))
    else
      match UserKey(docs[0])
      case None => Outcome(c, Failure(MissingUserId))
      case Some(k) =>
        CacheUsers(c.(users := c.users[k := docs[0]], lastAccess := c.lastAccess[k := now]), docs[1..], now)
  }

  /** `get_users_by_criteria`: the windowed matches, each cached under its id with the same access time. */
  function GetUsersStep(c: Caches, reply: FindManyReply, skip: nat, limit: Option<nat>, now: int): Outcome<seq<Doc>>
  {
    match reply
    case FindManyFailed => Outcome(c, Failure(ConnectionFailure))
    case Matches(all) =>
      var users := Window(all, skip, limit);
      var o := CacheUsers(c, users, now);
      if o.result.Failure? then o else Outcome(o.caches, Success(users))
  }

  /** The settings entries the time-to-live phase of `cleanup_cache` drops. */
  function Expired(c: Caches, now: int): set<int>
  {
    set id | id in c.lastAccess && now - c.lastAccess[id] > CacheTtl && id in c.settings
  }

  /** A non-empty set has a member to pick. */
  lemma HasMember(s: set<int>)
    requires s != {}
    ensures exists x :: x in s
  {
    if forall x :: x !in s {
      assert false;
    }
  }

  lemma MinusTwice(m: map<int, int>, a: set<int>, b: set<int>)
    ensures (m - a) - b == m - (a + b)
  {
  }

  /**
   * What the size phase has done so far to the settings cache `s0` and the
   * access table `a0`: some entries are gone, the table lost exactly those
   * ids, and nothing was removed unless the cache was over its limit.
   */
  predicate Trimmed(s0: map<int, Doc>, a0: map<int, int>, s: map<int, Doc>, a: map<int, int>)
  {
    && (forall k :: k in s ==> k in s0 && s[k] == s0[k])
    && (forall k :: k in s0 && k !in s ==> k in a0)
    && a == a0 - (s0.Keys - s.Keys)
    && (s == s0 || |s| >= MaxCacheSize)
  }

  /** Every entry gone had no later access time than any id still in the table. */
  predicate OldestFirst(s0: map<int, Doc>, a0: map<int, int>, s: map<int, Doc>, a: map<int, int>)
  {
    forall e, k :: e in s0 && e !in s && e in a0 && k in a ==> a0[e] <= a[k]
  }

  predicate EvictedOldest(s0: map<int, Doc>, a0: map<int, int>, s: map<int, Doc>, a: map<int, int>)
  {
    Trimmed(s0, a0, s, a) && OldestFirst(s0, a0, s, a)
  }

  /** Evicting the oldest id from a cache over its limit keeps `EvictedOldest`. */
  lemma EvictStep(s0: map<int, Doc>, a0: map<int, int>, s: map<int, Doc>, a: map<int, int>, id: int)
    requires EvictedOldest(s0, a0, s, a)
    requires |s| > MaxCacheSize && id in s && IsOldest(a, id)
    ensures EvictedOldest(s0, a0, s - {id}, a - {id})
  {
    assert |(s - {id}).Keys| == |s.Keys - {id}| == |s.Keys| - 1;
    assert s0.Keys - (s - {id}).Keys == (s0.Keys - s.Keys) + {id};
  }

  /**
   * The two phases of `cleanup_cache` together: what is left of the settings
   * cache is unchanged, has no expired id, and is all of the unexpired entries
   * unless the size phase found the cache over its limit.
   */
  lemma DropThenTrimKeeps(s0: map<int, Doc>, a0: map<int, int>, expired: set<int>, s: map<int, Doc>, a: map<int, int>)
    requires Trimmed(s0 - expired, a0 - expired, s, a)
    ensures forall k :: k in s ==> k in s0 && s[k] == s0[k]
    ensures forall k :: k in expired ==> k !in s
    ensures s == s0 - expired || |s| >= MaxCacheSize
  {
  }

  /** Together the two phases take exactly the removed ids out of the access table. */
  lemma DropThenTrimAccess(s0: map<int, Doc>, a0: map<int, int>, expired: set<int>, s: map<int, Doc>, a: map<int, int>)
    requires expired <= s0.Keys && expired <= a0.Keys
    requires Trimmed(s0 - expired, a0 - expired, s, a)
    ensures forall k :: k in s0 && k !in s ==> k in a0
    ensures a == a0 - (s0.Keys - s.Keys)
  {
    var s1 := s0 - expired;
    assert s1.Keys == s0.Keys - expired;
    assert s.Keys <= s1.Keys by {
      forall k | k in s.Keys
        ensures k in s1.Keys
      {
        assert k in s;
      }
    }
    RemovedInTwoSteps(s0.Keys, expired, s.Keys);
    MinusTwice(a0, expired, s1.Keys - s.Keys);
  }

  lemma RemovedInTwoSteps(k0: set<int>, expired: set<int>, k: set<int>)
    requires expired <= k0 && k <= k0 - expired
    ensures k0 - k == expired + ((k0 - expired) - k)
  {
  }

  /** An unexpired id the size phase evicted was no newer than any id still in the table. */
  lemma DropThenTrimOrder(s0: map<int, Doc>, a0: map<int, int>, expired: set<int>, s: map<int, Doc>, a: map<int, int>)
    requires OldestFirst(s0 - expired, a0 - expired, s, a)
    ensures forall e, k :: e in s0 && e !in s && e !in expired && e in a0 && k in a ==> a0[e] <= a[k]
  {
    forall e, k | e in s0 && e !in s && e !in expired && e in a0 && k in a
      ensures a0[e] <= a[k]
    {
      assert e in s0 - expired && e in a0 - expired;
    }
  }

  /** `k` has the smallest access time in `m`. */
  predicate IsOldest(m: map<int, int>, k: int)
  {
    k in m && forall j :: j in m ==> m[k] <= m[j]
  }

  // ---------------------------------------------------------------- the handler

  class MongoDBHandler {
    var settingsBuffer: map<int, Doc>
    var usersBuffer: map<int, Doc>
    var lastAccess: map<int, int>

    function Snapshot(): Caches
      reads this
    {
      Caches(settingsBuffer, usersBuffer, lastAccess)
    }

    predicate Valid()
      reads this
    {
      Consistent(Snapshot())
    }

    constructor()
      ensures Snapshot() == Caches(map[], map[], map[])
      ensures Valid()
    {
      settingsBuffer := map[];
      usersBuffer := map[];
      lastAccess := map[];
    }

    /** Smallest access time in `m`; among equal times any of them (the source takes the first in dict order). */
    static method OldestId(m: map<int, int>) returns (r: Option<int>)
      ensures r.None? <==> m == map[]
      ensures r.Some? ==> IsOldest(m, r.value)
    {
      r := None;
      var rest := m.Keys;
      while rest != {}
        invariant rest <= m.Keys
        invariant r.None? <==> rest == m.Keys
        invariant r.Some? ==> r.value in m && forall j :: j in m && j !in rest ==> m[r.value] <= m[j]
        decreases rest
      {
        HasMember(rest);
        var k :| k in rest;
        if r.None? || m[k] < m[r.value] {
          r := Some(k);
        }
        rest := rest - {k};
      }
      if m != map[] {
        assert r.Some? || exists k :: k in m.Keys;
      }
    }

    method GetSettings(guildId: int, forceRefresh: bool, now: int, reply: FindReply, insertOk: bool)
      returns (r: Result<Doc, DbError>)
      modifies this
      ensures var o := GetSettingsStep(old(Snapshot()), guildId, forceRefresh, now, reply, insertOk);
        Snapshot() == o.caches && r == o.result
    {
      if forceRefresh || guildId !in settingsBuffer {
        var settings: Doc;
        match reply {
          case FindFailed =>
            return Failure(ConnectionFailure);
          case Found(d) =>
            settings := d;
          case NotFound =>
            settings := map[];
        }
        if settings == map[] {
          settings := map["_id" := VInt(guildId)];
          if !insertOk {
            return Failure(ConnectionFailure);
          }
        }
        settingsBuffer := settingsBuffer[guildId := settings];
        lastAccess := lastAccess[guildId := now];
      }
      return Success(settingsBuffer[guildId]);
    }

    method UpdateDb(target: Target, id: int, data: Update, now: int, reply: UpdateReply) returns (r: Result<bool, DbError>)
      requires TargetPresent(Snapshot(), target, id)
      modifies this
      ensures var o := UpdateDbStep(old(Snapshot()), target, id, data, now, reply);
        Snapshot() == o.caches && r == o.result
    {
      var cache := TargetDoc(Snapshot(), target, id);
      var edited := ApplyOperations(cache, data);
      if edited.Failure? {
        settingsBuffer := settingsBuffer - {id};
        usersBuffer := usersBuffer - {id};
        return Failure(UpdateRejected(edited.error));
      }
      match target {
        case Detached(_) =>
        case UserEntry =>
          usersBuffer := usersBuffer[id := edited.value];
      }
      if reply.UpdateFailed? {
        settingsBuffer := settingsBuffer - {id};
        usersBuffer := usersBuffer - {id};
        return Failure(ConnectionFailure);
      }
      lastAccess := lastAccess[id := now];
      return Success(reply.modifiedCount > 0);
    }

    method UpdateSettings(guildId: int, data: Update, upsert: bool, now: int,
                          found: FindReply, insertOk: bool, reply: UpdateReply, upsertOk: bool)
      returns (r: Result<bool, DbError>)
      modifies this
      ensures var o := UpdateSettingsStep(old(Snapshot()), guildId, data, upsert, now, found, insertOk, reply, upsertOk);
        Snapshot() == o.caches && r == o.result
    {
      var settings := GetSettings(guildId, false, now, found, insertOk);
      if settings.Failure? {
        return Failure(settings.error);
      }
      r := UpdateDb(Detached(settings.value), guildId, data, now, reply);
      if r == Success(false) && upsert {
        if !upsertOk {
          return Failure(ConnectionFailure);
        }
        settingsBuffer := settingsBuffer[guildId := UpsertDoc(guildId, data)];
        return Success(true);
      }
    }

    method GetUser(userId: int, dType: Option<string>, forceRefresh: bool, now: int, reply: FindReply, insertOk: bool)
      returns (r: Result<Value, DbError>)
      modifies this
      ensures var o := GetUserStep(old(Snapshot()), userId, dType, forceRefresh, now, reply, insertOk);
        Snapshot() == o.caches && r == o.result
    {
      if forceRefresh || userId !in usersBuffer {
        var user: Doc;
        match reply {
          case FindFailed =>
            return Failure(ConnectionFailure);
          case Found(d) =>
            user := d;
          case NotFound =>
            user := map[];
        }
        if user == map[] {
          user := NewUserDoc(userId);
          if !insertOk {
            return Failure(ConnectionFailure);
          }
        }
        usersBuffer := usersBuffer[userId := user];
        lastAccess := lastAccess[userId := now];
      }
      var user := usersBuffer[userId];
      if dType.Some? && dType.value != "" {
        var t := dType.value;
        if t !in UserBase {
          return Failure(InvalidDataType(t));
        }
        if t !in user {
          usersBuffer := usersBuffer[userId := user[t := UserBase[t]]];
          return Success(UserBase[t]);
        }
        return Success(user[t]);
      }
      return Success(VMap(user));
    }

    method UpdateUser(userId: int, data: Update, upsert: bool, now: int,
                      found: FindReply, insertOk: bool, reply: UpdateReply, upsertOk: bool)
      returns (r: Result<bool, DbError>)
      modifies this
      ensures var o := UpdateUserStep(old(Snapshot()), userId, data, upsert, now, found, insertOk, reply, upsertOk);
        Snapshot() == o.caches && r == o.result
    {
      var user := GetUser(userId, None, false, now, found, insertOk);
      if user.Failure? {
        return Failure(user.error);
      }
      r := UpdateDb(UserEntry, userId, data, now, reply);
      if r == Success(false) && upsert {
        if !upsertOk {
          return Failure(ConnectionFailure);
        }
        usersBuffer := usersBuffer[userId := UpsertDoc(userId, data)];
        return Success(true);
      }
    }

    method DeleteUser(userId: int, reply: DeleteReply) returns (r: Result<bool, DbError>)
      modifies this
      ensures var o := DeleteUserStep(old(Snapshot()), userId, reply);
        Snapshot() == o.caches && r == o.result
    {
      if reply.DeleteFailed? {
        return Failure(ConnectionFailure);
      }
      if reply.deletedCount > 0 {
        usersBuffer := usersBuffer - {userId};
        lastAccess := lastAccess - {userId};
        return Success(true);
      }
      return Success(false);
    }

    method GetUsersByCriteria(reply: FindManyReply, skip: nat, limit: Option<nat>, now: int)
      returns (r: Result<seq<Doc>, DbError>)
      modifies this
      ensures var o := GetUsersStep(old(Snapshot()), reply, skip, limit, now);
        Snapshot() == o.caches && r == o.result
    {
      if reply.FindManyFailed? {
        return Failure(ConnectionFailure);
      }
      var users := Window(reply.docs, skip, limit);
      ghost var start := Snapshot();
      var i := 0;
      while i < |users|
        invariant 0 <= i <= |users|
        invariant CacheUsers(start, users, now) == CacheUsers(Snapshot(), users[i..], now)
      {
        var key := UserKey(users[i]);
        if key.None? {
          return Failure(MissingUserId);
        }
        assert users[i..][1..] == users[i + 1..];
        usersBuffer := usersBuffer[key.value := users[i]];
        lastAccess := lastAccess[key.value := now];
        i := i + 1;
      }
      return Success(users);
    }

    /**
     * `cleanup_cache`: drop the settings entries unused for longer than the
     * time-to-live, then trim the settings cache towards its size limit.
     */
    method CleanupCache(now: int)
      modifies this
      ensures usersBuffer == old(usersBuffer)
      ensures forall k :: k in settingsBuffer ==> k in old(settingsBuffer) && settingsBuffer[k] == old(settingsBuffer)[k]
      ensures forall k :: k in Expired(old(Snapshot()), now) ==> k !in settingsBuffer
      ensures forall k :: k in old(settingsBuffer) && k !in settingsBuffer ==> k in old(lastAccess)
      ensures lastAccess == old(lastAccess) - (old(settingsBuffer).Keys - settingsBuffer.Keys)
      ensures forall e, k :: e in old(settingsBuffer) && e !in settingsBuffer && e !in Expired(old(Snapshot()), now) && k in lastAccess ==>
        e in old(lastAccess) && old(lastAccess)[e] <= lastAccess[k]
      ensures |settingsBuffer| <= MaxCacheSize || lastAccess == map[] || exists k :: IsOldest(lastAccess, k) && k !in settingsBuffer
      ensures settingsBuffer == old(settingsBuffer) - Expired(old(Snapshot()), now) || |settingsBuffer| >= MaxCacheSize
    {
      ghost var settings0, access0 := settingsBuffer, lastAccess;
      var expired := Expired(Snapshot(), now);
      DropExpired(expired);
      ghost var settings1, access1 := settingsBuffer, lastAccess;
      TrimToSize();
      DropThenTrimKeeps(settings0, access0, expired, settingsBuffer, lastAccess);
      DropThenTrimAccess(settings0, access0, expired, settingsBuffer, lastAccess);
      DropThenTrimOrder(settings0, access0, expired, settingsBuffer, lastAccess);
    }

    /** The time-to-live phase: every listed entry leaves the settings cache and the access table. */
    method DropExpired(expired: set<int>)
      requires expired <= settingsBuffer.Keys && expired <= lastAccess.Keys
      modifies this
      ensures usersBuffer == old(usersBuffer)
      ensures settingsBuffer == old(settingsBuffer) - expired
      ensures lastAccess == old(lastAccess) - expired
    {
      var rest := expired;
      while rest != {}
        invariant rest <= expired
        invariant usersBuffer == old(usersBuffer)
        invariant settingsBuffer == old(settingsBuffer) - (expired - rest)
        invariant lastAccess == old(lastAccess) - (expired - rest)
        decreases rest
      {
        HasMember(rest);
        var id :| id in rest;
        settingsBuffer := settingsBuffer - {id};
        lastAccess := lastAccess - {id};
        rest := rest - {id};
      }
    }

    /**
     * The size phase: while the settings cache is over its limit, drop the
     * entry with the oldest access time.  That entry is looked up in the shared
     * access table, so when it belongs to a user (or the table is empty) the
     * lookup raises, the handler swallows the error, and the trimming stops.
     */
    method TrimToSize()
      modifies this
      ensures usersBuffer == old(usersBuffer)
      ensures EvictedOldest(old(settingsBuffer), old(lastAccess), settingsBuffer, lastAccess)
      ensures |settingsBuffer| <= MaxCacheSize || lastAccess == map[] || exists k :: IsOldest(lastAccess, k) && k !in settingsBuffer
    {
      while |settingsBuffer| > MaxCacheSize
        invariant usersBuffer == old(usersBuffer)
        invariant EvictedOldest(old(settingsBuffer), old(lastAccess), settingsBuffer, lastAccess)
        decreases |settingsBuffer|
      {
        var oldest := OldestId(lastAccess);
        if oldest.None? || oldest.value !in settingsBuffer {
          break;
        }
        var id := oldest.value;
        EvictStep(old(settingsBuffer), old(lastAccess), settingsBuffer, lastAccess, id);
        settingsBuffer := settingsBuffer - {id};
        lastAccess := lastAccess - {id};
      }
    }
  }
}

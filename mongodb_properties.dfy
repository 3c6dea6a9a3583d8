/** What the cache layer promises across its operations. */
module MongoDBProperties {
  import opened Wrappers
  import opened PyText
  import opened Documents
  import opened UpdateOps
  import opened MongoDB

  // ---------------------------------------------------------------- the new-user template

  /**
   * As written, every user document `get_user` creates carries `_id` 0, the
   * template's placeholder, whatever the user's id: two new users get the same
   * primary key.
   */
  lemma NewUserIdIsPlaceholder(a: int, b: int)
    ensures NewUserDocAsWritten(a)["_id"] == VInt(0)
    ensures NewUserDocAsWritten(a)["_id"] == NewUserDocAsWritten(b)["_id"]
    ensures a != 0 ==> NewUserDocAsWritten(a)["_id"] != VInt(a)
  {
    assert "_id" in UserBase;
  }

  /** With the placeholder replaced, distinct users get distinct primary keys and the same template fields. */
  lemma NewUserIdsDistinct(a: int, b: int)
    ensures a != b <==> NewUserDoc(a)["_id"] != NewUserDoc(b)["_id"]
    ensures NewUserDoc(a) - {"_id"} == NewUserDoc(b) - {"_id"}
  {
    assert (NewUserDoc(a) - {"_id"}).Keys == (NewUserDoc(b) - {"_id"}).Keys;
  }

  // ---------------------------------------------------------------- get_settings

  /** A miss that finds nothing creates `{"_id": guild_id}` and caches it with the current time. */
  lemma GetSettingsCreatesDefault(c: Caches, guildId: int, now: int)
    requires guildId !in c.settings
    ensures var o := GetSettingsStep(c, guildId, false, now, NotFound, true);
      && o.result == Success(map["_id" := VInt(guildId)])
      && o.caches.settings == c.settings[guildId := map["_id" := VInt(guildId)]]
      && o.caches.lastAccess == c.lastAccess[guildId := now]
  {
  }

  /** After a successful read, reading again without a refresh is served from the cache: same document, nothing changes. */
  lemma GetSettingsCachedRead(c: Caches, guildId: int, force: bool, now: int, reply: FindReply, insertOk: bool,
                              now2: int, reply2: FindReply, insertOk2: bool)
    requires GetSettingsStep(c, guildId, force, now, reply, insertOk).result.Success?
    ensures var o := GetSettingsStep(c, guildId, force, now, reply, insertOk);
      GetSettingsStep(o.caches, guildId, false, now2, reply2, insertOk2) == o
  {
  }

  /** A forced refresh stores whatever the collection returns (a non-empty document), even over a cached entry. */
  lemma GetSettingsRefreshReplaces(c: Caches, guildId: int, now: int, d: Doc)
    requires d != map[]
    ensures var o := GetSettingsStep(c, guildId, true, now, Found(d), false);
      o.result == Success(d) && o.caches.settings[guildId] == d && o.caches.lastAccess[guildId] == now
  {
  }

  // ---------------------------------------------------------------- _update_db

  /** Any failure rolls the id out of both caches and leaves the access table; success refreshes the access time. */
  lemma UpdateDbOutcome(c: Caches, target: Target, id: int, data: Update, now: int, reply: UpdateReply)
    requires TargetPresent(c, target, id)
    ensures var o := UpdateDbStep(c, target, id, data, now, reply);
      && (o.result.Failure? ==>
            o.caches == Rollback(c, id) &&
            (ApplyUpdate(TargetDoc(c, target, id), data).Failure? || reply.UpdateFailed?))
      && (o.result.Success? ==>
            && reply.Acknowledged?
            && o.result.value == (reply.modifiedCount > 0)
            && o.caches.lastAccess == c.lastAccess[id := now]
            && ApplyUpdate(TargetDoc(c, target, id), data).Success?)
      && (!OperatorsValid(data) ==> o == Outcome(Rollback(c, id), Failure(UpdateRejected(InvalidOperation))))
  {
    var applied := ApplyUpdate(TargetDoc(c, target, id), data);
    if applied.Success? {
      var c1 := WriteBack(c, target, id, applied.value);
      assert Rollback(c1, id) == Rollback(c, id);
    }
  }

  /** On a live target a successful update leaves exactly the edited document in the cache; a detached one leaves the cache as it was. */
  lemma UpdateDbWritesLiveEntry(c: Caches, target: Target, id: int, data: Update, now: int, reply: UpdateReply)
    requires TargetPresent(c, target, id)
    requires UpdateDbStep(c, target, id, data, now, reply).result.Success?
    ensures var o := UpdateDbStep(c, target, id, data, now, reply);
      var edited := ApplyUpdate(TargetDoc(c, target, id), data).value;
      && (target.UserEntry? ==> o.caches.users == c.users[id := edited] && o.caches.settings == c.settings)
      && (target.Detached? ==> o.caches.settings == c.settings && o.caches.users == c.users)
  {
  }

  // ---------------------------------------------------------------- update_settings

  /**
   * A successful `update_settings` leaves the cached settings as
   * `get_settings` returned them (unless the upsert replaced them): the edits
   * went to a deep copy.
   */
  lemma UpdateSettingsKeepsCachedCopy(c: Caches, guildId: int, data: Update, upsert: bool, now: int,
                                      found: FindReply, insertOk: bool, reply: UpdateReply, upsertOk: bool)
    ensures var g := GetSettingsStep(c, guildId, false, now, found, insertOk);
      var o := UpdateSettingsStep(c, guildId, data, upsert, now, found, insertOk, reply, upsertOk);
      o.result.Success? ==>
        && g.result.Success?
        && ApplyUpdate(g.result.value, data).Success?
        && guildId in o.caches.settings
        && o.caches.settings[guildId] == (if upsert && reply == Acknowledged(0) then UpsertDoc(guildId, data) else g.result.value)
  {
    var g := GetSettingsStep(c, guildId, false, now, found, insertOk);
    if g.result.Success? {
      UpdateDbOutcome(g.caches, Detached(g.result.value), guildId, data, now, reply);
    }
  }

  /** A concrete stale read: after `$set lang FR` succeeds, the cache still says "EN" while the collection was sent "FR". */
  lemma UpdateSettingsStaleExample()
    ensures var c := Caches(map[7 := map["_id" := VInt(7), "lang" := VStr("EN")]], map[], map[7 := 0]);
      var data: Update := [("$set", [("lang", VStr("FR"))])];
      var o := UpdateSettingsStep(c, 7, data, false, 10, NotFound, true, Acknowledged(1), true);
      && o.result == Success(true)
      && o.caches.settings[7]["lang"] == VStr("EN")
      && ApplyUpdate(c.settings[7], data) == Success(map["_id" := VInt(7), "lang" := VStr("FR")])
  {
    var d: Doc := map["_id" := VInt(7), "lang" := VStr("EN")];
    SplitNoSeparator("lang", '.');
    assert ApplyEdit(d, Set, "lang", VStr("FR")) == Success(d["lang" := VStr("FR")]);
    assert d["lang" := VStr("FR")] == map["_id" := VInt(7), "lang" := VStr("FR")];
    assert ApplyEdits(d, Set, [("lang", VStr("FR"))]) == Success(d["lang" := VStr("FR")]);
  }

  /** The upsert document holds the id and every `$set` field. */
  lemma UpsertDocFields(id: int, data: Update)
    ensures "_id" in UpsertDoc(id, data)
    ensures forall k :: k in UpsertDoc(id, data) <==> k == "_id" || exists i :: 0 <= i < |SetOperand(data)| && SetOperand(data)[i].0 == k
    ensures (forall i :: 0 <= i < |SetOperand(data)| ==> SetOperand(data)[i].0 != "_id") ==> UpsertDoc(id, data)["_id"] == VInt(id)
  {
  }

  // ---------------------------------------------------------------- get_user / update_user / delete_user

  /** A user created on a miss answers each template field with the template's value, `_id` with the user's id. */
  lemma GetUserNewUserField(c: Caches, userId: int, t: string, now: int)
    requires userId !in c.users && t in UserBase
    ensures var o := GetUserStep(c, userId, Some(t), false, now, NotFound, true);
      && o.result == Success(if t == "_id" then VInt(userId) else UserBase[t])
      && o.caches.users == c.users[userId := NewUserDoc(userId)]
  {
  }

  /** An unknown `d_type` is rejected only after the user was loaded and cached. */
  lemma GetUserInvalidTypeAfterLoad(c: Caches, userId: int, t: string, now: int, reply: FindReply, insertOk: bool)
    requires t != "" && t !in UserBase
    ensures var o := GetUserStep(c, userId, Some(t), false, now, reply, insertOk);
      var plain := GetUserStep(c, userId, None, false, now, reply, insertOk);
      && (plain.result.Success? ==> o == Outcome(plain.caches, Failure(InvalidDataType(t))))
      && (plain.result.Failure? ==> o == plain)
  {
  }

  /** Selecting a field twice gives the same value, and the second call changes nothing (the default was stored by the first). */
  lemma GetUserFieldStable(c: Caches, userId: int, t: string, now: int, reply: FindReply, insertOk: bool,
                           now2: int, reply2: FindReply, insertOk2: bool)
    requires GetUserStep(c, userId, Some(t), false, now, reply, insertOk).result.Success?
    ensures var o := GetUserStep(c, userId, Some(t), false, now, reply, insertOk);
      GetUserStep(o.caches, userId, Some(t), false, now2, reply2, insertOk2) == o
  {
    var o := GetUserStep(c, userId, Some(t), false, now, reply, insertOk);
    if t != "" && t in UserBase {
      assert t in o.caches.users[userId];
    }
  }

  /** A successful `update_user` (without the upsert insert) leaves the edited user document in the cache. */
  lemma UpdateUserRefreshesCache(c: Caches, userId: int, data: Update, upsert: bool, now: int,
                                 found: FindReply, insertOk: bool, reply: UpdateReply, upsertOk: bool)
    ensures var g := GetUserStep(c, userId, None, false, now, found, insertOk);
      var o := UpdateUserStep(c, userId, data, upsert, now, found, insertOk, reply, upsertOk);
      o.result.Success? ==>
        && g.result.Success? && g.result.value.VMap?
        && ApplyUpdate(g.result.value.fields, data).Success?
        && userId in o.caches.users
        && o.caches.users[userId] ==
             (if upsert && reply == Acknowledged(0) then UpsertDoc(userId, data) else ApplyUpdate(g.result.value.fields, data).value)
  {
    var g := GetUserStep(c, userId, None, false, now, found, insertOk);
    if g.result.Success? {
      UpdateDbOutcome(g.caches, UserEntry, userId, data, now, reply);
    }
  }

  /** A confirmed deletion drops the user and its access time; anything else leaves the caches alone. */
  lemma DeleteUserOutcome(c: Caches, userId: int, reply: DeleteReply)
    ensures var o := DeleteUserStep(c, userId, reply);
      && (o.result == Success(true) <==> reply.DeleteAcknowledged? && reply.deletedCount > 0)
      && (o.result == Success(true) ==> userId !in o.caches.users && userId !in o.caches.lastAccess && o.caches.settings == c.settings)
      && (o.result != Success(true) ==> o.caches == c)
  {
  }

  // ---------------------------------------------------------------- get_users_by_criteria

  /** The caching loop succeeds exactly when every document has a usable id. */
  lemma {:induction false} CacheUsersSucceeds(c: Caches, docs: seq<Doc>, now: int)
    ensures var o := CacheUsers(c, docs, now);
      && (o.result.Success? <==> forall i :: 0 <= i < |docs| ==> UserKey(docs[i]).Some?)
      && (o.result.Failure? ==> o.result.error == MissingUserId)
    decreases |docs|
  {
    if docs != [] && UserKey(docs[0]).Some? {
      var k := UserKey(docs[0]).value;
      CacheUsersSucceeds(c.(users := c.users[k := docs[0]], lastAccess := c.lastAccess[k := now]), docs[1..], now);
      assert forall i :: 1 <= i < |docs| ==> docs[1..][i - 1] == docs[i];
    }
  }

  /** Users whose id no document carries keep their cache entry and access time. */
  lemma {:induction false} CacheUsersFrame(c: Caches, docs: seq<Doc>, now: int, k: int)
    requires forall i :: 0 <= i < |docs| ==> UserKey(docs[i]) != Some(k)
    ensures var o := CacheUsers(c, docs, now);
      && (k in o.caches.users <==> k in c.users) && (k in c.users ==> o.caches.users[k] == c.users[k])
      && (k in o.caches.lastAccess <==> k in c.lastAccess) && (k in c.lastAccess ==> o.caches.lastAccess[k] == c.lastAccess[k])
    decreases |docs|
  {
    if docs != [] && UserKey(docs[0]).Some? {
      var k0 := UserKey(docs[0]).value;
      assert forall i :: 0 <= i < |docs[1..]| ==> docs[1..][i] == docs[i + 1];
      CacheUsersFrame(c.(users := c.users[k0 := docs[0]], lastAccess := c.lastAccess[k0 := now]), docs[1..], now, k);
    }
  }

  /** After a successful loop every document's id is cached with the loop's access time. */
  lemma {:induction false} CacheUsersCachesAll(c: Caches, docs: seq<Doc>, now: int)
    ensures var o := CacheUsers(c, docs, now);
      o.result.Success? ==>
        forall i :: 0 <= i < |docs| ==>
          UserKey(docs[i]).Some? && UserKey(docs[i]).value in o.caches.users &&
          UserKey(docs[i]).value in o.caches.lastAccess && o.caches.lastAccess[UserKey(docs[i]).value] == now
    decreases |docs|
  {
    var o := CacheUsers(c, docs, now);
    if docs != [] && UserKey(docs[0]).Some? && o.result.Success? {
      var k := UserKey(docs[0]).value;
      var c1 := c.(users := c.users[k := docs[0]], lastAccess := c.lastAccess[k := now]);
      CacheUsersCachesAll(c1, docs[1..], now);
      forall i | 0 <= i < |docs|
        ensures UserKey(docs[i]).Some? && UserKey(docs[i]).value in o.caches.users &&
          UserKey(docs[i]).value in o.caches.lastAccess && o.caches.lastAccess[UserKey(docs[i]).value] == now
      {
        if i > 0 {
          assert docs[1..][i - 1] == docs[i];
        } else if j :| 1 <= j < |docs| && UserKey(docs[j]) == Some(k) {
          assert docs[1..][j - 1] == docs[j];
        } else {
          assert forall j :: 0 <= j < |docs[1..]| ==> UserKey(docs[1..][j]) != Some(k) by {
            forall j | 0 <= j < |docs[1..]| ensures UserKey(docs[1..][j]) != Some(k) {
              assert docs[1..][j] == docs[j + 1];
            }
          }
          CacheUsersFrame(c1, docs[1..], now, k);
        }
      }
    }
  }

  /** For an id carried by several documents, the cache ends with the last of them. */
  lemma {:induction false} CacheUsersLastWins(c: Caches, docs: seq<Doc>, now: int, i: nat)
    requires i < |docs| && UserKey(docs[i]).Some?
    requires forall j :: i < j < |docs| ==> UserKey(docs[j]) != UserKey(docs[i])
    requires CacheUsers(c, docs, now).result.Success?
    ensures UserKey(docs[i]).value in CacheUsers(c, docs, now).caches.users
    ensures CacheUsers(c, docs, now).caches.users[UserKey(docs[i]).value] == docs[i]
    decreases |docs|
  {
    var k := UserKey(docs[0]).value;
    var c1 := c.(users := c.users[k := docs[0]], lastAccess := c.lastAccess[k := now]);
    if i > 0 {
      assert docs[1..][i - 1] == docs[i];
      assert forall j :: i - 1 < j < |docs[1..]| ==> docs[1..][j] == docs[j + 1];
      CacheUsersLastWins(c1, docs[1..], now, i - 1);
    } else {
      assert forall j :: 0 <= j < |docs[1..]| ==> docs[1..][j] == docs[j + 1];
      CacheUsersFrame(c1, docs[1..], now, k);
    }
  }

  /** A failed find changes nothing; a successful one returns the window and caches it. */
  lemma GetUsersOutcome(c: Caches, reply: FindManyReply, skip: nat, limit: Option<nat>, now: int)
    ensures var o := GetUsersStep(c, reply, skip, limit, now);
      && (reply.FindManyFailed? ==> o == Outcome(c, Failure(ConnectionFailure)))
      && (o.result.Success? ==>
            && reply.Matches?
            && o.result.value == Window(reply.docs, skip, limit)
            && (forall i :: 0 <= i < |o.result.value| ==>
                  UserKey(o.result.value[i]).Some? && UserKey(o.result.value[i]).value in o.caches.users))
      && o.caches.settings == c.settings
  {
    if reply.Matches? {
      CacheUsersCachesAll(c, Window(reply.docs, skip, limit), now);
    }
  }

  // ---------------------------------------------------------------- the consistency invariant

  lemma GetSettingsKeepsConsistent(c: Caches, guildId: int, force: bool, now: int, reply: FindReply, insertOk: bool)
    requires Consistent(c)
    ensures Consistent(GetSettingsStep(c, guildId, force, now, reply, insertOk).caches)
  {
  }

  lemma UpdateDbKeepsConsistent(c: Caches, target: Target, id: int, data: Update, now: int, reply: UpdateReply)
    requires Consistent(c) && TargetPresent(c, target, id)
    ensures Consistent(UpdateDbStep(c, target, id, data, now, reply).caches)
  {
  }

  lemma UpdateSettingsKeepsConsistent(c: Caches, id: int, data: Update, upsert: bool, now: int,
                                      found: FindReply, insertOk: bool, reply: UpdateReply, upsertOk: bool)
    requires Consistent(c)
    ensures Consistent(UpdateSettingsStep(c, id, data, upsert, now, found, insertOk, reply, upsertOk).caches)
  {
    var g := GetSettingsStep(c, id, false, now, found, insertOk);
    GetSettingsKeepsConsistent(c, id, false, now, found, insertOk);
    if g.result.Success? {
      UpdateDbKeepsConsistent(g.caches, Detached(g.result.value), id, data, now, reply);
      UpdateDbOutcome(g.caches, Detached(g.result.value), id, data, now, reply);
    }
  }

  lemma UpdateUserKeepsConsistent(c: Caches, id: int, data: Update, upsert: bool, now: int,
                                  found: FindReply, insertOk: bool, reply: UpdateReply, upsertOk: bool)
    requires Consistent(c)
    ensures Consistent(UpdateUserStep(c, id, data, upsert, now, found, insertOk, reply, upsertOk).caches)
  {
    var g := GetUserStep(c, id, None, false, now, found, insertOk);
    GetUserKeepsConsistent(c, id, None, false, now, found, insertOk);
    if g.result.Success? {
      UpdateDbKeepsConsistent(g.caches, UserEntry, id, data, now, reply);
      UpdateDbOutcome(g.caches, UserEntry, id, data, now, reply);
    }
  }

  lemma GetUserKeepsConsistent(c: Caches, userId: int, dType: Option<string>, force: bool, now: int,
                               reply: FindReply, insertOk: bool)
    requires Consistent(c)
    ensures Consistent(GetUserStep(c, userId, dType, force, now, reply, insertOk).caches)
  {
  }

  /**
   * The access table is shared by guilds and users, so deleting a user keeps
   * every settings entry timed only while user and guild ids are distinct, as
   * Discord ids are.
   */
  lemma DeleteUserKeepsConsistent(c: Caches, userId: int, reply: DeleteReply)
    requires Consistent(c) && userId !in c.settings
    ensures Consistent(DeleteUserStep(c, userId, reply).caches)
  {
  }

  lemma {:induction false} CacheUsersKeepsConsistent(c: Caches, docs: seq<Doc>, now: int)
    requires Consistent(c)
    ensures Consistent(CacheUsers(c, docs, now).caches)
    decreases |docs|
  {
    if docs != [] && UserKey(docs[0]).Some? {
      var k := UserKey(docs[0]).value;
      CacheUsersKeepsConsistent(c.(users := c.users[k := docs[0]], lastAccess := c.lastAccess[k := now]), docs[1..], now);
    }
  }
}

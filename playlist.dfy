/**
 * The rules behind the playlist commands: allocating a playlist id, finding a
 * playlist by name, and the guards `create`, `rename`, `delete` and `remove`
 * check before they touch the user's document.  A user's playlists are the
 * entries of the "playlist" dict, in the dict's order.
 */
module Playlists {
  import opened Wrappers
  import opened PyText
  import opened Documents

  /** The `type` of a playlist entry: "playlist", "link" or "share". */
  datatype Kind = Regular | Link | Share

  datatype Playlist = Playlist(name: string, kind: Kind, tracks: seq<Value>)

  /** The "playlist" dict: ids with their entries, in insertion order. */
  type Entries = seq<(string, Playlist)>

  /** The longest playlist name `create` and `rename` accept. */
  const MaxNameLength: nat := 10

  /** `playlist["name"].lower() == name.lower()`. */
  predicate NameMatches(p: Playlist, name: string)
  {
    Lower(p.name) == Lower(name)
  }

  predicate HasName(entries: Entries, name: string)
  {
    exists k :: 0 <= k < |entries| && NameMatches(entries[k].1, name)
  }

  function Ids(entries: Entries): (r: seq<string>)
    ensures |r| == |entries|
    ensures forall k :: 0 <= k < |entries| ==> r[k] == entries[k].0
  {
    seq(|entries|, k requires 0 <= k < |entries| => entries[k].0)
  }

  // ---------------------------------------------------------------- assign_playlist_id

  /** The ids `assign_playlist_id` hands out: "200" up to "209". */
  predicate IsCandidate(i: int)
  {
    200 <= i < 210
  }

  /** The first of "200".."209" not among the existing ids; None when all ten are taken. */
  method AssignPlaylistId(existed: seq<string>) returns (r: Option<string>)
    ensures r.None? <==> forall i :: IsCandidate(i) ==> DecimalString(i) in existed
    ensures r.Some? ==> r.value !in existed
    ensures r.Some? ==> exists i :: (IsCandidate(i) && r.value == DecimalString(i) &&
      forall j :: 200 <= j < i ==> DecimalString(j) in existed)
  {
    for i := 200 to 210
      invariant forall j :: 200 <= j < i ==> DecimalString(j) in existed
    {
      if DecimalString(i) !in existed {
        assert IsCandidate(i);
        return Some(DecimalString(i));
      }
    }
    return None;
  }

  /**
   * The key `create` writes the new playlist under: `f"playlist.{id}"`, which
   * reads "playlist.None" when no id was free.  As a dotted path it leads into
   * the "playlist" dict, to the id's entry.
   */
  function CreateKey(id: Option<string>): (r: string)
    ensures id.Some? && '.' !in id.value ==> Split(r, '.') == ["playlist", id.value]
    ensures id.None? ==> Split(r, '.') == ["playlist", "None"]
  {
    var name := if id.Some? then id.value else "None";
    assert "playlist." + name == "playlist" + ['.'] + name;
    if '.' !in name then
      TwoFields("playlist", name);
      "playlist." + name
    else
      "playlist." + name
  }

  /** Two dot-free parts joined by a dot split back into those parts. */
  lemma TwoFields(a: string, b: string)
    requires '.' !in a && '.' !in b
    ensures Split(a + ['.'] + b, '.') == [a, b]
  {
    SplitConcat(a, b, '.');
    SplitNoSeparator(a, '.');
    SplitNoSeparator(b, '.');
  }

  /** The first `k` candidate ids, "200" onwards. */
  function Candidates(k: nat): set<string>
  {
    if k == 0 then {} else Candidates(k - 1) + {DecimalString(200 + (k - 1))}
  }

  /** No later number renders as one of the first `k` candidates. */
  lemma {:induction false} LaterNotCandidate(k: nat, j: nat)
    requires j >= 200 + k
    ensures DecimalString(j) !in Candidates(k)
  {
    if k > 0 {
      LaterNotCandidate(k - 1, j);
      if DecimalString(j) == DecimalString(200 + (k - 1)) {
        DecimalStringInjective(j, 200 + (k - 1));
      }
    }
  }

  lemma {:induction false} CandidatesCount(k: nat)
    ensures |Candidates(k)| == k
  {
    if k > 0 {
      CandidatesCount(k - 1);
      LaterNotCandidate(k - 1, 200 + (k - 1));
    }
  }

  lemma {:induction false} CandidatesWithin(k: nat, s: set<string>)
    requires forall i :: 200 <= i < 200 + k ==> DecimalString(i) in s
    ensures Candidates(k) <= s
  {
    if k > 0 {
      CandidatesWithin(k - 1, s);
    }
  }

  lemma SubsetSmaller(a: set<string>, b: set<string>)
    requires a <= b
    ensures |a| <= |b|
  {
    assert b == a + (b - a);
  }

  /** Fewer than ten distinct existing ids always leave one of "200".."209" free. */
  lemma FreeIdExists(existed: seq<string>)
    requires |set x | x in existed| < 10
    ensures exists i :: IsCandidate(i) && DecimalString(i) !in existed
  {
    if forall i :: IsCandidate(i) ==> DecimalString(i) in existed {
      var ids := set x | x in existed;
      forall i | 200 <= i < 200 + 10
        ensures DecimalString(i) in ids
      {
        assert IsCandidate(i);
      }
      CandidatesCount(10);
      CandidatesWithin(10, ids);
      SubsetSmaller(Candidates(10), ids);
      assert false;
    }
  }

  // ---------------------------------------------------------------- check_playlist

  /** The position (1-based) and id of the first playlist whose name matches, ignoring case. */
  method FindByName(entries: Entries, name: string) returns (r: Option<(nat, string)>)
    ensures r.None? <==> !HasName(entries, name)
    ensures r.Some? ==>
      && 1 <= r.value.0 <= |entries|
      && entries[r.value.0 - 1].0 == r.value.1
      && NameMatches(entries[r.value.0 - 1].1, name)
      && (forall k :: 0 <= k < r.value.0 - 1 ==> !NameMatches(entries[k].1, name))
  {
    var index := 1;
    while index <= |entries|
      invariant 1 <= index <= |entries| + 1
      invariant forall k :: 0 <= k < index - 1 ==> !NameMatches(entries[k].1, name)
    {
      if NameMatches(entries[index - 1].1, name) {
        return Some((index, entries[index - 1].0));
      }
      index := index + 1;
    }
    return None;
  }

  /** What `check_playlist` resolves a name to. */
  datatype Lookup = Lookup(playlist: Option<Playlist>, position: Option<nat>, id: Option<string>)

  /**
   * `check_playlist(ctx, name, share=False)`: no name means the default
   * playlist "200" at position 1 (a KeyError when the user has none); otherwise
   * the first entry whose name matches, or nothing.
   */
  method CheckPlaylist(entries: Entries, name: string) returns (r: Result<Lookup, string>)
    ensures name == "" ==>
      (r.Success? <==> exists k :: 0 <= k < |entries| && entries[k].0 == "200")
    ensures name == "" && r.Success? ==>
      r.value.position == Some(1) && r.value.id == Some("200") && r.value.playlist.Some? &&
      exists k :: 0 <= k < |entries| && entries[k] == ("200", r.value.playlist.value)
    ensures name != "" ==> r.Success?
    ensures name != "" && r.Success? && r.value.playlist.None? ==>
      !HasName(entries, name) && r.value == Lookup(None, None, None)
    ensures name != "" && r.Success? && r.value.playlist.Some? ==>
      r.value.position.Some? && r.value.id.Some? &&
      1 <= r.value.position.value <= |entries| &&
      entries[r.value.position.value - 1] == (r.value.id.value, r.value.playlist.value) &&
      NameMatches(r.value.playlist.value, name) &&
      forall k :: 0 <= k < r.value.position.value - 1 ==> !NameMatches(entries[k].1, name)
  {
    if name == "" {
      var k := 0;
      while k < |entries|
        invariant 0 <= k <= |entries|
        invariant forall j :: 0 <= j < k ==> entries[j].0 != "200"
      {
        if entries[k].0 == "200" {
          return Success(Lookup(Some(entries[k].1), Some(1), Some("200")));
        }
        k := k + 1;
      }
      return Failure("200");
    }
    var found := FindByName(entries, name);
    if found.None? {
      return Success(Lookup(None, None, None));
    }
    var position := found.value.0;
    return Success(Lookup(Some(entries[position - 1].1), Some(position), Some(found.value.1)));
  }

  // ---------------------------------------------------------------- guards

  datatype Refusal =
    | OverText            // 'playlistOverText'
    | OverLimit           // 'overPlaylistCreation'
    | Exists              // 'playlistExists'
    | SameName            // 'playlistSameName'
    | NotFound            // 'playlistNotFound'
    | DeleteDefault       // 'playlistDeleteError'
    | NotAllowed          // 'playlistNotAllow'
    | PositionNotFound    // 'playlistPositionNotFound'

  /** `create`: the name length, then the playlist count against `max_p`, then a case-insensitive clash. */
  function CreateCheck(entries: Entries, name: string, maxP: int): (r: Result<(), Refusal>)
    ensures r.Success? <==> |name| <= MaxNameLength && |entries| < maxP && !HasName(entries, name)
    ensures r == Failure(OverText) <==> |name| > MaxNameLength
    ensures r == Failure(OverLimit) <==> |name| <= MaxNameLength && |entries| >= maxP
    ensures r == Failure(Exists) <==> |name| <= MaxNameLength && |entries| < maxP && HasName(entries, name)
  {
    if |name| > MaxNameLength then Failure(OverText)
    else if |entries| >= maxP then Failure(OverLimit)
    else if HasName(entries, name) then Failure(Exists)
    else Success(())
  }

  /** With the limit at most ten and distinct ids, an accepted `create` always finds a free id. */
  lemma CreateFindsId(entries: Entries, name: string, maxP: int)
    requires maxP <= 10
    requires forall j, k :: 0 <= j < k < |entries| ==> entries[j].0 != entries[k].0
    requires CreateCheck(entries, name, maxP).Success?
    ensures exists i :: IsCandidate(i) && DecimalString(i) !in Ids(entries)
  {
    IdsDistinctCount(Ids(entries));
    FreeIdExists(Ids(entries));
  }

  lemma {:induction false} IdsDistinctCount(ids: seq<string>)
    ensures |set x | x in ids| <= |ids|
  {
    if ids != [] {
      IdsDistinctCount(ids[1..]);
      assert (set x | x in ids) == (set x | x in ids[1..]) + {ids[0]};
    }
  }

  /** What `rename` decides: a refusal, or the id of the playlist to rename. */
  datatype RenameDecision = Refused(reason: Refusal) | RenameId(id: string)

  /**
   * `rename`: the new name's length, then sameness with the old name, then a
   * scan in which any entry named like the new name refuses at once and the
   * last entry named like the old name is the one renamed.
   */
  method RenameCheck(entries: Entries, name: string, newname: string) returns (r: RenameDecision)
    ensures r.RenameId? <==>
      |newname| <= MaxNameLength && Lower(name) != Lower(newname) && !HasName(entries, newname) && HasName(entries, name)
    ensures |newname| > MaxNameLength <==> r == Refused(OverText)
    ensures r == Refused(SameName) <==> |newname| <= MaxNameLength && Lower(name) == Lower(newname)
    ensures r == Refused(Exists) <==>
      |newname| <= MaxNameLength && Lower(name) != Lower(newname) && HasName(entries, newname)
    ensures r == Refused(NotFound) <==>
      |newname| <= MaxNameLength && Lower(name) != Lower(newname) && !HasName(entries, newname) && !HasName(entries, name)
    ensures r.RenameId? ==> exists k :: (0 <= k < |entries| && entries[k].0 == r.id && NameMatches(entries[k].1, name) &&
      forall j :: k < j < |entries| ==> !NameMatches(entries[j].1, name))
  {
    if |newname| > MaxNameLength {
      return Refused(OverText);
    }
    if Lower(name) == Lower(newname) {
      return Refused(SameName);
    }
    var found, id, at := false, "", 0;
    var k := 0;
    while k < |entries|
      invariant 0 <= k <= |entries|
      invariant forall j :: 0 <= j < k ==> !NameMatches(entries[j].1, newname)
      invariant found <==> exists j :: 0 <= j < k && NameMatches(entries[j].1, name)
      invariant found ==> (0 <= at < k && entries[at].0 == id && NameMatches(entries[at].1, name) &&
        forall j :: at < j < k ==> !NameMatches(entries[j].1, name))
    {
      if NameMatches(entries[k].1, name) {
        found, id, at := true, entries[k].0, k;
      }
      if NameMatches(entries[k].1, newname) {
        return Refused(Exists);
      }
      k := k + 1;
    }
    if !found {
      return Refused(NotFound);
    }
    return RenameId(id);
  }

  /** `delete`: the playlist must exist, and the default playlist "200" is never deleted. */
  function DeleteCheck(found: Lookup): (r: Result<string, Refusal>)
    ensures r.Success? <==> found.playlist.Some? && found.id.Some? && found.id.value != "200"
    ensures r.Success? ==> r.value == found.id.value
    ensures r == Failure(NotFound) <==> found.playlist.None? || found.id.None?
    ensures r == Failure(DeleteDefault) <==> found.playlist.Some? && found.id == Some("200")
  {
    if found.playlist.None? then Failure(NotFound)
    else if found.id.None? then Failure(NotFound)
    else if found.id.value == "200" then Failure(DeleteDefault)
    else Success(found.id.value)
  }

  /** `remove`: the playlist must exist, hold its own tracks, and the 1-based position must name one of them. */
  function RemoveCheck(found: Lookup, position: int): (r: Result<Value, Refusal>)
    ensures r.Success? <==>
      found.playlist.Some? && found.playlist.value.kind == Regular && 0 < position <= |found.playlist.value.tracks|
    ensures r.Success? ==> r.value == found.playlist.value.tracks[position - 1]
    ensures r == Failure(NotFound) <==> found.playlist.None?
    ensures r == Failure(NotAllowed) <==> found.playlist.Some? && found.playlist.value.kind != Regular
    ensures r == Failure(PositionNotFound) <==>
      found.playlist.Some? && found.playlist.value.kind == Regular && !(0 < position <= |found.playlist.value.tracks|)
  {
    if found.playlist.None? then Failure(NotFound)
    else if found.playlist.value.kind != Regular then Failure(NotAllowed)
    else if !(0 < position <= |found.playlist.value.tracks|) then Failure(PositionNotFound)
    else Success(found.playlist.value.tracks[position - 1])
  }
}

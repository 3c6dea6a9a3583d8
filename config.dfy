/**
 * `Config`: the one settings object of the process, and the lookups the core
 * makes through it.  Only the two settings blocks those lookups read are
 * modelled; reading the settings file and the environment is outside the
 * model.
 */
module Configuration {
  import opened Wrappers
  import opened PyText
  import opened Documents

  /** The settings blocks the lookups read: `sources_settings` and `playlist_settings`. */
  datatype Settings = Settings(sources: map<string, map<string, string>>, playlist: map<string, Value>)

  /** `settings or {}`: every block missing. */
  const NoSettings: Settings := Settings(map[], map[])

  /** How a source name is looked up: `source.lower().strip().replace(" ", "")`. */
  function Normalize(source: string): (r: string)
    ensures ' ' !in r
    ensures |r| <= |source|
  {
    RemoveChar(Strip(Lower(source)), ' ')
  }

  /** `get_source_config` over the sources block: None for a non-string argument, an unknown source reads the "others" entry. */
  function SourceConfig(sources: map<string, map<string, string>>, source: Value, kind: Value): (r: Option<string>)
    ensures !source.VStr? || !kind.VStr? ==> r.None?
    ensures source.VStr? && kind.VStr? && Normalize(source.s) in sources ==>
      r == (if kind.s in sources[Normalize(source.s)] then Some(sources[Normalize(source.s)][kind.s]) else None)
    ensures source.VStr? && kind.VStr? && Normalize(source.s) !in sources && "others" in sources ==>
      r == (if kind.s in sources["others"] then Some(sources["others"][kind.s]) else None)
    ensures source.VStr? && kind.VStr? && Normalize(source.s) !in sources && "others" !in sources ==> r.None?
  {
    if !source.VStr? || !kind.VStr? then None
    else
      var table :=
        if Normalize(source.s) in sources then sources[Normalize(source.s)]
        else if "others" in sources then sources["others"]
        else map[];
      if kind.s in table then Some(table[kind.s]) else None
  }

  /** `get_playlist_config`: (max playlists, max tracks per playlist, default playlist name), defaulting to (5, 500, "Favourite"). */
  function PlaylistConfig(playlist: map<string, Value>): (r: (Value, Value, Value))
    ensures r.0 == Get(playlist, "max_playlists", VInt(5))
    ensures r.1 == Get(playlist, "max_tracks_per_playlist", VInt(500))
    ensures r.2 == Get(playlist, "default_playlist_name", VStr("Favourite"))
    ensures playlist == map[] ==> r == (VInt(5), VInt(500), VStr("Favourite"))
  {
    (Get(playlist, "max_playlists", VInt(5)),
     Get(playlist, "max_tracks_per_playlist", VInt(500)),
     Get(playlist, "default_playlist_name", VStr("Favourite")))
  }

  // ---------------------------------------------------------------- normalisation lemmas

  /** Every character is already lower case. */
  predicate IsLowered(s: string)
  {
    forall i :: 0 <= i < |s| ==> LowerChar(s[i]) == s[i]
  }

  lemma LowerIsLowered(s: string)
    ensures IsLowered(Lower(s))
  {
    var l := Lower(s);
    forall i | 0 <= i < |l|
      ensures LowerChar(l[i]) == l[i]
    {
      assert l[i] == LowerChar(s[i]);
    }
  }

  lemma LowerFixed(s: string)
    requires IsLowered(s)
    ensures Lower(s) == s
  {
    assert forall i :: 0 <= i < |s| ==> Lower(s)[i] == s[i];
  }

  lemma StripKeepsLowered(s: string)
    requires IsLowered(s)
    ensures IsLowered(Strip(s))
  {
    var a := StripStart(s);
    assert a == s[|s| - |a|..];
    assert IsLowered(a);
    var b := StripEnd(a);
    assert b == a[..|b|];
  }

  lemma {:induction false} RemoveCharKeepsLowered(s: string, c: char)
    requires IsLowered(s)
    ensures IsLowered(RemoveChar(s, c))
  {
    if s != [] {
      assert IsLowered(s[1..]);
      RemoveCharKeepsLowered(s[1..], c);
    }
  }

  lemma StripKeepsTrimmed(s: string)
    requires s == [] || (!IsSpace(s[0]) && !IsSpace(s[|s| - 1]))
    ensures Strip(s) == s
  {
    assert StripStart(s) == s;
    assert StripEnd(s) == s;
  }

  lemma {:induction false} RemoveCharSnoc(s: string, x: char, c: char)
    requires x != c
    ensures RemoveChar(s + [x], c) == RemoveChar(s, c) + [x]
  {
    if s == [] {
      assert [] + [x] == [x];
      assert RemoveChar([x], c) == [x] + RemoveChar([], c);
    } else {
      assert (s + [x])[0] == s[0];
      assert (s + [x])[1..] == s[1..] + [x];
      RemoveCharSnoc(s[1..], x, c);
    }
  }

  /** Removing a character keeps the ends that are not that character. */
  lemma RemoveCharEnds(s: string, c: char)
    requires s != [] && s[0] != c && s[|s| - 1] != c
    ensures var r := RemoveChar(s, c); r != [] && r[0] == s[0] && r[|r| - 1] == s[|s| - 1]
  {
    if |s| == 1 {
      assert RemoveChar(s, c) == [s[0]] + RemoveChar([], c);
    } else {
      var init := s[..|s| - 1];
      assert s == init + [s[|s| - 1]];
      RemoveCharSnoc(init, s[|s| - 1], c);
      assert RemoveChar(s, c) == [s[0]] + RemoveChar(s[1..], c);
    }
  }

  /** Normalising a normalised name changes nothing, so looking a key up by its own normal form finds it. */
  lemma NormalizeIdempotent(source: string)
    ensures Normalize(Normalize(source)) == Normalize(source)
  {
    var stripped := Strip(Lower(source));
    var n := Normalize(source);
    LowerIsLowered(source);
    StripKeepsLowered(Lower(source));
    RemoveCharKeepsLowered(stripped, ' ');
    LowerFixed(n);
    if stripped != [] {
      assert !IsSpace(stripped[0]) && !IsSpace(stripped[|stripped| - 1]);
      RemoveCharEnds(stripped, ' ');
    }
    StripKeepsTrimmed(n);
  }

  /** Case does not matter: "YouTube" and "youtube" name the same source. */
  lemma NormalizeIgnoresCase(source: string)
    ensures Normalize(Lower(source)) == Normalize(source)
  {
    LowerIdempotent(source);
  }

  /** Surrounding whitespace does not matter: " youtube" and "youtube" name the same source. */
  lemma NormalizeIgnoresLeadingSpace(source: string)
    ensures Normalize([' '] + source) == Normalize(source)
  {
    var s := [' '] + source;
    assert Lower(s) == [' '] + Lower(source) by {
      assert forall i :: 0 <= i < |s| ==> Lower(s)[i] == ([' '] + Lower(source))[i];
    }
    assert ([' '] + Lower(source))[1..] == Lower(source);
    assert StripStart(Lower(s)) == StripStart(Lower(source));
  }

  // ---------------------------------------------------------------- the singleton

  /** One settings object; `initialized` is set by the first `__init__` to run on it. */
  class Config {
    var initialized: bool
    var sourcesSettings: map<string, map<string, string>>
    var playlistSettings: map<string, Value>

    /** `object.__new__`: nothing set yet. */
    constructor()
      ensures !initialized && sourcesSettings == map[] && playlistSettings == map[]
    {
      initialized := false;
      sourcesSettings := map[];
      playlistSettings := map[];
    }

    /** `__init__`: a no-op on an initialized object; otherwise reads the settings and marks the object initialized. */
    method Init(settings: Settings)
      modifies this
      ensures initialized
      ensures old(initialized) ==> sourcesSettings == old(sourcesSettings) && playlistSettings == old(playlistSettings)
      ensures !old(initialized) ==> sourcesSettings == settings.sources && playlistSettings == settings.playlist
    {
      if initialized {
        return;
      }
      sourcesSettings := settings.sources;
      playlistSettings := settings.playlist;
      initialized := true;
    }
  }

  /** The class-level `_instance` slot and the class methods that read it. */
  class ConfigClass {
    var instance: Config?

    constructor()
      ensures instance == null
    {
      instance := null;
    }

    /**
     * `Config(settings)`: given settings, a fresh object is initialized from
     * them and replaces the singleton; without, the existing object is
     * returned (created first when there is none).  Python then runs
     * `__init__` on the result, which only initializes a new object.
     */
    method New(settings: Option<Settings>) returns (c: Config)
      modifies this, instance
      ensures instance == c && c.initialized
      ensures settings.Some? ==> fresh(c) && c.sourcesSettings == settings.value.sources && c.playlistSettings == settings.value.playlist
      ensures settings.None? && old(instance) != null ==> c == old(instance)
      ensures settings.None? && old(instance) != null && old(instance.initialized) ==>
        c.sourcesSettings == old(instance.sourcesSettings) && c.playlistSettings == old(instance.playlistSettings)
      ensures settings.None? && (old(instance) == null || !old(instance.initialized)) ==>
        c.sourcesSettings == NoSettings.sources && c.playlistSettings == NoSettings.playlist
    {
      if settings.Some? {
        c := new Config();
        c.Init(settings.value);
        instance := c;
        c.Init(settings.value);
        return;
      }
      if instance == null {
        instance := new Config();
      }
      c := instance;
      c.Init(NoSettings);
    }

    /** `get_source_config`: non-string arguments give None before the singleton is read; without a singleton the read raises. */
    function GetSourceConfig(source: Value, kind: Value): (r: Result<Option<string>, string>)
      reads this, instance
      ensures (!source.VStr? || !kind.VStr?) ==> r == Success(None)
      ensures source.VStr? && kind.VStr? && instance == null ==> r.Failure?
      ensures instance != null ==> r == Success(SourceConfig(instance.sourcesSettings, source, kind))
    {
      if !source.VStr? || !kind.VStr? then Success(None)
      else if instance == null then Failure("no Config instance")
      else Success(SourceConfig(instance.sourcesSettings, source, kind))
    }

    /** `get_playlist_config` through the singleton; without one the read raises. */
    function GetPlaylistConfig(): (r: Result<(Value, Value, Value), string>)
      reads this, instance
      ensures instance == null <==> r.Failure?
      ensures instance != null ==> r == Success(PlaylistConfig(instance.playlistSettings))
    {
      if instance == null then Failure("no Config instance") else Success(PlaylistConfig(instance.playlistSettings))
    }
  }
}

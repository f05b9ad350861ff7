/** The pure parts of `ScriptableSFXManagerEditor`: the folder of the
    manager's asset, the generated class's file name, and the text of the
    generated C# file, whose constants are keys for `Play(string)`.
    Writing the file and refreshing the asset database are left out: only
    the path and the text are modelled. */
module EditorCodegen {
  import opened Outcomes
  import opened CsStrings
  import opened Sounds
  import opened Tracks
  import opened Indexes
  import opened Manager
  import opened CamelCasing
  import opened RegistryFacts

  /** `GetDefaultPath`: the asset path up to and including its last `/`, or
      `""` when it has none. */
  function GetDefaultPath(assetPath: string): (dir: string)
    ensures |dir| <= |assetPath| && dir == assetPath[..|dir|]
    ensures dir == "" || dir[|dir| - 1] == '/'
    ensures '/' !in assetPath[|dir|..]
  {
    var i := LastIndexOf(assetPath, '/');
    Substring(assetPath, 0, i + 1).value
  }

  /** The three properties of `GetDefaultPath` single out its result: no
      other prefix ends with `/` (or is empty) and leaves no `/` behind. */
  lemma DefaultPathUnique(assetPath: string, dir: string)
    requires |dir| <= |assetPath| && dir == assetPath[..|dir|]
    requires dir == "" || dir[|dir| - 1] == '/'
    requires '/' !in assetPath[|dir|..]
    ensures dir == GetDefaultPath(assetPath)
  {
  }

  /** `GetFileName`: `CamelCase(name + "Tracks")`, which is the manager's
      name followed by `Tracks`, with the spaces dropped and each word
      capitalised, or the exception `CamelCase` throws. */
  function GetFileName(upper: char -> char, managerName: string): (r: Result<string>)
    ensures r.Failure? ==> r.error == IndexOutOfRange
    ensures r.Success? ==> r.value == CamelSpec(upper, managerName + "Tracks", true)
  {
    var r := CamelCase(upper, managerName + "Tracks");
    if r.Success? then CamelCaseIsSpec(upper, managerName + "Tracks"); r else r
  }

  /** `GetFileName` throws exactly when the manager's name starts with a
      space or holds two spaces in a row; an empty name or a trailing space
      is fine, since "Tracks" closes the last piece. */
  lemma GetFileNameFailsIff(upper: char -> char, managerName: string)
    ensures GetFileName(upper, managerName).Failure? <==>
      || (|managerName| > 0 && managerName[0] == ' ')
      || exists i :: 0 <= i < |managerName| - 1 && managerName[i] == ' ' && managerName[i + 1] == ' '
  {
    var s := managerName + "Tracks";
    var n := |managerName|;
    assert s[|s| - 1] == 's';
    assert s[0] == if n > 0 then managerName[0] else 'T';
    assert s[n] == 'T';
    forall i | n <= i < |s| ensures s[i] != ' ' {
      assert s[i] == "Tracks"[i - n];
    }
    if exists i :: 0 <= i < n - 1 && managerName[i] == ' ' && managerName[i + 1] == ' ' {
      var i :| 0 <= i < n - 1 && managerName[i] == ' ' && managerName[i + 1] == ' ';
      assert s[i] == ' ' && s[i + 1] == ' ';
    }
    if !WellSpaced(s) {
      if !(n > 0 && managerName[0] == ' ') {
        var i :| 0 <= i < |s| - 1 && s[i] == ' ' && s[i + 1] == ' ';
        assert i + 1 < n;
        assert managerName[i] == ' ' && managerName[i + 1] == ' ';
      }
    }
  }

  /** `GetFullDefaultPath() + ".cs"`: where the generated file goes. */
  function GeneratedFilePath(upper: char -> char, assetPath: string, managerName: string): (r: Result<string>)
    ensures r.Failure? <==> GetFileName(upper, managerName).Failure?
    ensures r.Success? ==> r.value == GetDefaultPath(assetPath) + GetFileName(upper, managerName).value + ".cs"
  {
    match GetFileName(upper, managerName)
    case Failure(e) => Failure(e)
    case Success(name) => Success(GetDefaultPath(assetPath) + name + ".cs")
  }

  /** The string value of a generated constant. */
  function ConstValue(trackName: string, soundName: string): string
  {
    trackName + "_" + soundName
  }

  /** The generated file's layout: a class named after the file, one struct
      per track, one string constant per sound. */
  datatype ConstDecl = ConstDecl(ident: string, value: string)
  datatype StructDecl = StructDecl(name: string, consts: seq<ConstDecl>)
  datatype ClassDecl = ClassDecl(name: string, structs: seq<StructDecl>)

  /** The struct for one track: its name, and per sound (in list order) a
      constant named by the camel-cased sound name holding the play key. */
  function StructFor(upper: char -> char, t: Track): (s: StructDecl)
    ensures s.name == t.name && |s.consts| == |t.sounds|
    ensures forall j :: 0 <= j < |t.sounds| ==>
      s.consts[j] == ConstDecl(CamelSpec(upper, t.sounds[j].name, true), ConstValue(t.name, t.sounds[j].name))
  {
    StructDecl(t.name, seq(|t.sounds|, j requires 0 <= j < |t.sounds| =>
      ConstDecl(CamelSpec(upper, t.sounds[j].name, true), ConstValue(t.name, t.sounds[j].name))))
  }

  function StructsFor(upper: char -> char, tracks: seq<Track>): (ss: seq<StructDecl>)
    ensures |ss| == |tracks| && forall i :: 0 <= i < |tracks| ==> ss[i] == StructFor(upper, tracks[i])
  {
    seq(|tracks|, i requires 0 <= i < |tracks| => StructFor(upper, tracks[i]))
  }

  /** Every sound name camel-cases without an exception. */
  predicate SoundNamesWellSpaced(tracks: seq<Track>) {
    forall i, j :: 0 <= i < |tracks| && 0 <= j < |tracks[i].sounds| ==> WellSpaced(tracks[i].sounds[j].name)
  }

  /** The layout for `tracks` in `GetTracks` order, or the exception that
      camel-casing the file name or a sound name throws. */
  function Declarations(upper: char -> char, managerName: string, tracks: seq<Track>): (r: Result<ClassDecl>)
    ensures r.Failure? <==> GetFileName(upper, managerName).Failure? || !SoundNamesWellSpaced(tracks)
    ensures r.Failure? ==> r.error == IndexOutOfRange
  {
    match GetFileName(upper, managerName)
    case Failure(e) => Failure(e)
    case Success(name) =>
      if SoundNamesWellSpaced(tracks) then Success(ClassDecl(name, StructsFor(upper, tracks)))
      else Failure(IndexOutOfRange)
  }

  const Header: string :=
    "// This is a script generated from the ScriptableSFXManager scriptable object. Do not edit manually\n\n"

  function ConstLine(c: ConstDecl): string
  {
    "public const string " + c.ident + " = \"" + c.value + "\";"
  }

  /** One line per constant, each ended by `nl`. */
  function ConstsText(cs: seq<ConstDecl>, nl: string): string
    decreases |cs|
  {
    if |cs| == 0 then "" else ConstsText(cs[..|cs| - 1], nl) + ConstLine(cs[|cs| - 1]) + nl
  }

  /** A struct: header line, `{`, its constants, `}` and an empty line. */
  function StructText(s: StructDecl, nl: string): string
  {
    "public struct " + s.name + nl + "{" + nl + ConstsText(s.consts, nl) + "}" + nl + nl
  }

  function StructsText(ss: seq<StructDecl>, nl: string): string
    decreases |ss|
  {
    if |ss| == 0 then "" else StructsText(ss[..|ss| - 1], nl) + StructText(ss[|ss| - 1], nl)
  }

  /** The whole file: header comment, class line, `{`, the structs in
      order, and a closing `}` with no line break after it. */
  function ClassText(c: ClassDecl, nl: string): string
  {
    Header + "public static class " + c.name + nl + "{" + nl + StructsText(c.structs, nl) + "}"
  }

  /** Every sound name of one track camel-cases without an exception. */
  predicate TrackSoundsWellSpaced(t: Track) {
    forall j :: 0 <= j < |t.sounds| ==> WellSpaced(t.sounds[j].name)
  }

  /** The constants loop of `GenerateCsClass` for one track: one line per
      sound, in list order, or the exception the first badly spaced sound
      name throws. */
  method ConstsCode(upper: char -> char, track: Track, nl: string) returns (text: Result<string>)
    ensures text.Failure? <==> !TrackSoundsWellSpaced(track)
    ensures text.Failure? ==> text.error == IndexOutOfRange
    ensures text.Success? ==> text.value == ConstsText(StructFor(upper, track).consts, nl)
  {
    var builder := "";
    ghost var consts := StructFor(upper, track).consts;
    var k := 0;
    while k < |track.sounds|
      invariant 0 <= k <= |track.sounds|
      invariant forall j :: 0 <= j < k ==> WellSpaced(track.sounds[j].name)
      invariant builder == ConstsText(consts[..k], nl)
    {
      var sound := track.sounds[k];
      var ident := CamelCase(upper, sound.name);
      if ident.Failure? {
        return Failure(ident.error);
      }
      var line := "public const string " + ident.value + " = \"" + track.name + "_" + sound.name + "\";";
      ConstLineStep(upper, track, k, ident.value, line, nl);
      builder := builder + line + nl;
      k := k + 1;
    }
    assert consts[..k] == consts;
    text := Success(builder);
  }

  /** One iteration of the constants loop appends the next constant's line. */
  lemma ConstLineStep(upper: char -> char, track: Track, k: int, ident: string, line: string, nl: string)
    requires 0 <= k < |track.sounds|
    requires CamelCase(upper, track.sounds[k].name) == Success(ident)
    requires line == "public const string " + ident + " = \"" + track.name + "_" + track.sounds[k].name + "\";"
    ensures var consts := StructFor(upper, track).consts;
      ConstsText(consts[..k + 1], nl) == ConstsText(consts[..k], nl) + line + nl
  {
    var sound := track.sounds[k];
    var consts := StructFor(upper, track).consts;
    CamelCaseIsSpec(upper, sound.name);
    assert consts[k] == ConstDecl(ident, ConstValue(track.name, sound.name));
    assert line == ConstLine(consts[k]);
    ConstsTextSnoc(consts, k, nl);
  }

  lemma ConstsTextSnoc(cs: seq<ConstDecl>, k: int, nl: string)
    requires 0 <= k < |cs|
    ensures ConstsText(cs[..k + 1], nl) == ConstsText(cs[..k], nl) + ConstLine(cs[k]) + nl
  {
    assert cs[..k + 1][..k] == cs[..k];
  }

  lemma StructsTextSnoc(ss: seq<StructDecl>, i: int, nl: string)
    requires 0 <= i < |ss|
    ensures StructsText(ss[..i + 1], nl) == StructsText(ss[..i], nl) + StructText(ss[i], nl)
  {
    assert ss[..i + 1][..i] == ss[..i];
  }

  /** One iteration of the tracks loop of `GenerateCsClass`. */
  method StructCode(upper: char -> char, track: Track, nl: string) returns (text: Result<string>)
    ensures text.Failure? <==> !TrackSoundsWellSpaced(track)
    ensures text.Failure? ==> text.error == IndexOutOfRange
    ensures text.Success? ==> text.value == StructText(StructFor(upper, track), nl)
  {
    var consts := ConstsCode(upper, track, nl);
    if consts.Failure? {
      return consts;
    }
    text := Success("public struct " + track.name + nl + "{" + nl + consts.value + "}" + nl + nl);
  }

  lemma SoundNamesWellSpacedSnoc(tracks: seq<Track>, i: int)
    requires 0 <= i < |tracks|
    ensures SoundNamesWellSpaced(tracks[..i + 1]) <==>
      SoundNamesWellSpaced(tracks[..i]) && TrackSoundsWellSpaced(tracks[i])
  {
    var pre, ext := tracks[..i], tracks[..i + 1];
    assert forall a :: 0 <= a < i ==> ext[a] == pre[a];
    assert ext[i] == tracks[i];
  }

  lemma SoundNamesWellSpacedFails(tracks: seq<Track>, i: int)
    requires 0 <= i < |tracks| && !TrackSoundsWellSpaced(tracks[i])
    ensures !SoundNamesWellSpaced(tracks)
  {
    var j :| 0 <= j < |tracks[i].sounds| && !WellSpaced(tracks[i].sounds[j].name);
  }

  /** The tracks loop of `GenerateCsClass`: one struct per track, in
      order, or the exception of the first track with a badly spaced sound
      name. */
  method StructsCode(upper: char -> char, tracks: seq<Track>, nl: string) returns (text: Result<string>)
    ensures text.Failure? <==> !SoundNamesWellSpaced(tracks)
    ensures text.Failure? ==> text.error == IndexOutOfRange
    ensures text.Success? ==> text.value == StructsText(StructsFor(upper, tracks), nl)
  {
    var builder := "";
    ghost var all := StructsFor(upper, tracks);
    var i := 0;
    while i < |tracks|
      invariant 0 <= i <= |tracks|
      invariant SoundNamesWellSpaced(tracks[..i])
      invariant builder == StructsText(all[..i], nl)
    {
      var code := StructCode(upper, tracks[i], nl);
      if code.Failure? {
        SoundNamesWellSpacedFails(tracks, i);
        return code;
      }
      SoundNamesWellSpacedSnoc(tracks, i);
      StructsTextSnoc(all, i, nl);
      builder := builder + code.value;
      i := i + 1;
    }
    assert tracks[..i] == tracks && all[..i] == all;
    text := Success(builder);
  }

  /** `GenerateCsClass` up to the file write: the `StringBuilder` loops over
      `GetTracks()`. `nl` is `Environment.NewLine`, appended by every
      `AppendLine`. The text is exactly the rendered layout, and the method
      throws `IndexOutOfRange` exactly when the layout cannot be formed. */
  method GenerateCsClass(upper: char -> char, manager: Registry, managerName: string, nl: string)
    returns (text: Result<string>)
    requires WellFormed(manager)
    ensures var d := Declarations(upper, managerName, TrackValues(manager));
      && (text.Failure? <==> d.Failure?)
      && (text.Failure? ==> text.error == IndexOutOfRange)
      && (text.Success? ==> text.value == ClassText(d.value, nl))
  {
    var fileName := GetFileName(upper, managerName);
    if fileName.Failure? {
      return Failure(fileName.error);
    }
    var opening := Header + "public static class " + fileName.value + nl + "{" + nl;
    var structs := StructsCode(upper, TrackValues(manager), nl);
    if structs.Failure? {
      return structs;
    }
    text := Success(opening + structs.value + "}");
  }

  /** The text of a generated constant's literal, passed to `Play(string)`,
      plays its own sound on its own track when the track name holds no
      `_`. Names are pasted into the literal unescaped, so this text is the
      compiled value only when they hold no backslash or double quote. */
  lemma GeneratedKeyPlaysItsSound(upper: char -> char, r: Registry, i: int, j: int)
    requires Inv(r) && WellNamed(map[], TrackValues(r))
    requires 0 <= i < |r.tracks| && 0 <= j < |TrackValues(r)[i].sounds|
    requires '_' !in TrackValues(r)[i].name
    ensures var t := TrackValues(r)[i];
      var key := StructFor(upper, t).consts[j].value;
      && PlayKey(r, key) == Play(r, t.name, t.sounds[j].name)
      && PlayKey(r, key).result.Success?
      && PlayKey(r, key).next.objects == r.objects[r.tracks[i] := PlaySound(t, t.sounds[j], r.voicesCreated)]
  {
    var t := TrackValues(r)[i];
    SplitKeyRoundTrip(t.name, t.sounds[j].name);
    PlayRegistered(r, i, j);
  }

  /** ... and only then: with a `_` in the track name, the key splits at
      that `_`, so `Play(string)` looks up a different pair. */
  lemma GeneratedKeyNeedsPlainTrackName(upper: char -> char, t: Track, j: int)
    requires 0 <= j < |t.sounds|
    ensures var key := StructFor(upper, t).consts[j].value;
      SplitKey(key) == Success((t.name, t.sounds[j].name)) <==> '_' !in t.name
  {
    SplitKeyRoundTrip(t.name, t.sounds[j].name);
  }
}

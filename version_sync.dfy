/** `scripts/version_sync.py`: reads `APP_VERSION` from the environment file and writes it into
    the installer script's `!define VERSION...` lines and into the `key=value` lines of the
    installer configuration. Files are sequences of lines, each with its line terminator. */
module VersionSync {
  import opened Outcomes
  import opened PyStr

  /** The `version_*` entries of `env_props`; a missing patch is `None`. */
  datatype Version = Version(major: string, minor: string, build: string, patch: Option<string>)

  /** The parts of the text after the first `=`, split on `.` and stripped; missing major, minor
      and build parts read as `0`. */
  function VersionOf(value: string): Version {
    var parts := SplitOn(value, '.');
    Version(
      Strip(parts[0]),
      if |parts| > 1 then Strip(parts[1]) else "0",
      if |parts| > 2 then Strip(parts[2]) else "0",
      if |parts| > 3 then Some(Strip(parts[3])) else None)
  }

  /** The version of one `APP_VERSION` line; a line without `=` has no `prop_split[1]`. */
  function LineVersion(line: string): Result<Version> {
    var prop := SplitOn(line, '=');
    if |prop| > 1 then Ok(VersionOf(prop[1])) else Err(IndexError)
  }

  predicate IsVersionLine(line: string) {
    StartsWith(line, "APP_VERSION")
  }

  /** The version of the first `APP_VERSION` line, or none when there is no such line. */
  function EnvVersion(lines: seq<string>): Result<Option<Version>>
    decreases |lines|
  {
    if |lines| == 0 then Ok(None)
    else if IsVersionLine(lines[0]) then
      var v :- LineVersion(lines[0]);
      Ok(Some(v))
    else EnvVersion(lines[1..])
  }

  /** The loop over the environment file, which stops at the first `APP_VERSION` line. */
  method ReadVersion(lines: seq<string>) returns (r: Result<Option<Version>>)
    ensures r == EnvVersion(lines)
  {
    var i := 0;
    while i < |lines|
      invariant i <= |lines|
      invariant EnvVersion(lines[i..]) == EnvVersion(lines)
    {
      if IsVersionLine(lines[i]) {
        var v := LineVersion(lines[i]);
        if v.Err? {
          return Err(v.error);
        }
        return Ok(Some(v.value));
      }
      assert lines[i..][1..] == lines[i + 1..];
      i := i + 1;
    }
    r := Ok(None);
  }

  /** Only the first `APP_VERSION` line counts: whatever follows it is never read. */
  lemma {:induction false} FirstVersionLineOnly(a: seq<string>, b: seq<string>, k: nat)
    requires k < |a| && IsVersionLine(a[k])
    requires forall j :: 0 <= j < k ==> !IsVersionLine(a[j])
    ensures EnvVersion(a + b) == EnvVersion(a)
    ensures EnvVersion(a) == (var v :- LineVersion(a[k]); Ok(Some(v)))
    decreases k
  {
    if k > 0 {
      assert (a + b)[1..] == a[1..] + b;
      FirstVersionLineOnly(a[1..], b, k - 1);
    }
  }

  /** A version part as the configuration writes it: no dot and no surrounding whitespace. */
  predicate Plain(p: string) {
    '.' !in p && Strip(p) == p
  }

  /** `v<major>.<minor>.<build>`, with `.<patch>` only for a non-empty patch. */
  function VersionText(v: Version): string {
    "v" + v.major + "." + v.minor + "." + v.build +
    (if v.patch.Some? && v.patch.value != "" then "." + v.patch.value else "")
  }

  /** The parts of a version in the order the configuration writes them. */
  function Parts(v: Version): seq<string> {
    [v.major, v.minor, v.build] + (if v.patch.Some? then [v.patch.value] else [])
  }

  /** The text after the `v` splits on `.` into the parts, when no part holds a dot. */
  lemma SplitVersionText(v: Version)
    requires forall p :: p in Parts(v) ==> '.' !in p
    requires v.patch != Some("")
    ensures SplitOn(VersionText(v)[1..], '.') == Parts(v)
  {
    assert Parts(v)[0] == v.major && Parts(v)[1] == v.minor && Parts(v)[2] == v.build;
    var rest := Parts(v)[2..];
    if v.patch.Some? {
      assert Parts(v)[3] == v.patch.value;
    }
    SplitTail(v);
    var last := TailText(v);
    VersionTextBody(v);
    SplitOnAfter(v.minor, last, '.');
    SplitOnAfter(v.major, v.minor + ['.'] + last, '.');
    assert Parts(v) == [v.major] + ([v.minor] + rest);
  }

  lemma VersionTextBody(v: Version)
    ensures VersionText(v)[1..] == v.major + ['.'] + (v.minor + ['.'] + TailText(v))
  {
    var last := TailText(v);
    assert VersionText(v) == ['v'] + (v.major + ['.'] + v.minor + ['.'] + last);
  }

  /** The build and the patch as the version text ends with them. */
  function TailText(v: Version): string {
    v.build + (if v.patch.Some? && v.patch.value != "" then "." + v.patch.value else "")
  }

  lemma SplitTail(v: Version)
    requires '.' !in v.build && (v.patch.Some? ==> '.' !in v.patch.value)
    requires v.patch != Some("")
    ensures SplitOn(TailText(v), '.') == Parts(v)[2..]
  {
    if v.patch.Some? {
      SplitOnAbsent(v.patch.value, '.');
      SplitOnAfter(v.build, v.patch.value, '.');
      assert TailText(v) == v.build + "." + v.patch.value;
      assert Parts(v)[2..] == [v.build, v.patch.value];
    } else {
      SplitOnAbsent(v.build, '.');
      assert TailText(v) == v.build;
      assert Parts(v)[2..] == [v.build];
    }
  }

  /** The configuration's version text reads back, after its `v`, as the version it was
      written from. */
  lemma VersionTextRoundTrip(v: Version)
    requires forall p :: p in Parts(v) ==> Plain(p)
    requires v.patch != Some("")
    ensures VersionOf(VersionText(v)[1..]) == v
  {
    SplitVersionText(v);
    var parts := SplitOn(VersionText(v)[1..], '.');
    assert parts == Parts(v);
    assert Plain(parts[0]) && Plain(parts[1]) && Plain(parts[2]);
    if v.patch.Some? {
      assert Plain(parts[3]);
    }
    var r := VersionOf(VersionText(v)[1..]);
    assert r.major == v.major;
    assert |parts| > 1 && Strip(parts[1]) == v.minor;
    assert r.minor == v.minor;
    assert r.build == v.build;
    assert r.patch == v.patch;
  }

  /** A file rewrite applied line by line: `lines[i]` is replaced by `f(lines[i])`, and the
      first line whose rewrite fails stops the whole rewrite with its error. */
  function EachLine(f: string -> Result<string>, lines: seq<string>): (r: Result<seq<string>>)
    ensures r.Ok? ==> |r.value| == |lines|
    ensures r.Ok? ==> forall i :: 0 <= i < |lines| ==> f(lines[i]) == Ok(r.value[i])
    decreases |lines|
  {
    if |lines| == 0 then Ok([])
    else
      var init :- EachLine(f, lines[..|lines| - 1]);
      var last :- f(lines[|lines| - 1]);
      Ok(init + [last])
  }

  /** The rewrite fails exactly when some line's rewrite fails. */
  lemma {:induction false} EachLineErr(f: string -> Result<string>, lines: seq<string>)
    ensures EachLine(f, lines).Err? <==> exists i :: 0 <= i < |lines| && f(lines[i]).Err?
    decreases |lines|
  {
    if |lines| > 0 {
      var init := lines[..|lines| - 1];
      EachLineErr(f, init);
      if exists i :: 0 <= i < |init| && f(init[i]).Err? {
        var i :| 0 <= i < |init| && f(init[i]).Err?;
        assert f(lines[i]).Err?;
      }
      if exists i :: 0 <= i < |lines| && f(lines[i]).Err? {
        var i :| 0 <= i < |lines| && f(lines[i]).Err?;
        if i < |init| {
          assert f(init[i]).Err?;
        }
      }
    }
  }

  /** A prefix whose rewrite fails makes the whole rewrite fail. */
  lemma {:induction false} EachLinePrefixErr(f: string -> Result<string>, lines: seq<string>, j: nat)
    requires j <= |lines| && EachLine(f, lines[..j]).Err?
    ensures EachLine(f, lines) == EachLine(f, lines[..j])
    decreases |lines|
  {
    if j < |lines| {
      assert lines[..|lines| - 1][..j] == lines[..j];
      EachLinePrefixErr(f, lines[..|lines| - 1], j);
    } else {
      assert lines[..j] == lines;
    }
  }

  /** The loop `for i, line in enumerate(lines): lines[i] = ...` that both the installer script
      and the configuration go through, replacing each line in place. */
  method RewriteLines(f: string -> Result<string>, lines: seq<string>) returns (r: Result<seq<string>>)
    ensures r == EachLine(f, lines)
  {
    var out := lines;
    var i := 0;
    while i < |lines|
      invariant i <= |lines| && |out| == |lines|
      invariant out[i..] == lines[i..]
      invariant EachLine(f, lines[..i]) == Ok(out[..i])
    {
      assert lines[..i + 1][..i] == lines[..i];
      var line := f(lines[i]);
      if line.Err? {
        EachLinePrefixErr(f, lines, i + 1);
        return Err(line.error);
      }
      out := out[i := line.value];
      assert out[..i + 1] == out[..i] + [line.value];
      i := i + 1;
    }
    assert lines[..i] == lines && out[..i] == out;
    r := Ok(out);
  }

  /** The version parts an NSIS `!define` can name. */
  datatype Part = Major | Minor | Build | Patch

  /** The part named by the lower-cased second word of a `!define` line. */
  function PartNamed(name: string): Option<Part> {
    if name == "versionmajor" then Some(Major)
    else if name == "versionminor" then Some(Minor)
    else if name == "versionbuild" then Some(Build)
    else if name == "versionpatch" then Some(Patch)
    else None
  }

  /** The value written for a part; a missing patch is written as `str(None)`. */
  function PartValue(v: Version, p: Part): string {
    match p
    case Major => v.major
    case Minor => v.minor
    case Build => v.build
    case Patch => if v.patch.Some? then v.patch.value else "None"
  }

  /** The line written for a part: `!define` and the part's upper-case name. */
  function DefineLine(v: Version, p: Part): string {
    var name := match p
      case Major => "VERSIONMAJOR"
      case Minor => "VERSIONMINOR"
      case Build => "VERSIONBUILD"
      case Patch => "VERSIONPATCH";
    "!define " + name + " " + PartValue(v, p) + "\n"
  }

  predicate IsDefine(line: string) {
    StartsWith(Lower(line), "!define")
  }

  /** The part a line of the installer script defines, if any: the line starts with `!define`
      in any case and its second word names a part in any case. */
  function DefinedPart(line: string): Option<Part> {
    if IsDefine(line) then
      var words := SplitWs(Strip(line));
      if |words| > 1 then PartNamed(Lower(words[1])) else None
    else None
  }

  /** One line of the installer script: a line that defines a part is replaced by the line for
      that part of the version; without a version that is a `KeyError`. Other lines are kept. */
  function NsisLine(v: Option<Version>, line: string): (r: Result<string>)
    ensures DefinedPart(line).None? ==> r == Ok(line)
    ensures DefinedPart(line).Some? && v.None? ==> r == Err(KeyError)
    ensures DefinedPart(line).Some? && v.Some? ==> r == Ok(DefineLine(v.value, DefinedPart(line).value))
  {
    match DefinedPart(line)
    case None => Ok(line)
    case Some(p) => if v.None? then Err(KeyError) else Ok(DefineLine(v.value, p))
  }

  /** The installer script rewritten. */
  function NsisScript(v: Option<Version>, lines: seq<string>): Result<seq<string>> {
    EachLine(l => NsisLine(v, l), lines)
  }

  /** With a version the installer script is always rewritten: its length is kept, lines that
      define no part are kept, and each line that does define one becomes that part's line. */
  lemma NsisScriptOk(v: Version, lines: seq<string>)
    ensures NsisScript(Some(v), lines).Ok?
    ensures |NsisScript(Some(v), lines).value| == |lines|
    ensures forall i :: 0 <= i < |lines| ==>
      NsisScript(Some(v), lines).value[i] ==
      (if DefinedPart(lines[i]).Some? then DefineLine(v, DefinedPart(lines[i]).value) else lines[i])
  {
    EachLineErr(l => NsisLine(Some(v), l), lines);
  }

  /** Without a version the installer script fails exactly when some line defines a part. */
  lemma NsisScriptNoVersion(lines: seq<string>)
    ensures NsisScript(None, lines).Err? <==> exists i :: 0 <= i < |lines| && DefinedPart(lines[i]).Some?
  {
    EachLineErr(l => NsisLine(None, l), lines);
  }

  /** The length of the run of digits at the start of `s`. */
  function DigitRun(s: string): (n: nat)
    ensures n <= |s|
    ensures forall k :: 0 <= k < n ==> IsDigit(s[k])
    ensures n < |s| ==> !IsDigit(s[n])
    decreases |s|
  {
    if |s| > 0 && IsDigit(s[0]) then 1 + DigitRun(s[1..]) else 0
  }

  /** Up to `k` groups `.<digits>` at the start of `s`, each taken greedily. */
  function DotGroups(s: string, k: nat): (n: nat)
    ensures n <= |s|
    decreases k
  {
    if k > 0 && |s| >= 2 && s[0] == '.' && IsDigit(s[1]) then
      var g := 1 + DigitRun(s[1..]);
      g + DotGroups(s[g..], k - 1)
    else 0
  }

  /** A version token starts here: `v` and a digit. */
  predicate TokenStart(s: string) {
    |s| >= 2 && s[0] == 'v' && IsDigit(s[1])
  }

  /** The length of the match of `v\d+(?:\.\d+)?(?:\.\d+)?(?:\.\d+)?` at the start of `s`. */
  function TokenLength(s: string): (n: nat)
    requires TokenStart(s)
    ensures 2 <= n <= |s|
  {
    var d := 1 + DigitRun(s[1..]);
    d + DotGroups(s[d..], 3)
  }

  /** `re.sub` of that pattern: every match, scanned from the left, replaced by `rep`. */
  function SubVersion(s: string, rep: string): string
    decreases |s|
  {
    if |s| == 0 then ""
    else if TokenStart(s) then rep + SubVersion(s[TokenLength(s)..], rep)
    else [s[0]] + SubVersion(s[1..], rep)
  }

  predicate HasToken(s: string)
    decreases |s|
  {
    |s| > 0 && (TokenStart(s) || HasToken(s[1..]))
  }

  /** A value without any version token is kept as it is. */
  lemma {:induction false} SubVersionAbsent(s: string, rep: string)
    requires !HasToken(s)
    ensures SubVersion(s, rep) == s
    decreases |s|
  {
    if |s| > 0 {
      SubVersionAbsent(s[1..], rep);
      assert [s[0]] + s[1..] == s;
    }
  }

  /** A value that is a single token is replaced as a whole. */
  lemma SubVersionToken(s: string, rep: string)
    requires TokenStart(s) && TokenLength(s) == |s|
    ensures SubVersion(s, rep) == rep
  {
    assert s[TokenLength(s)..] == [];
  }

  /** One line of the configuration: a line with `=` becomes its first field, `=`, and its
      second field with the version replaced, on a line of its own; later fields are dropped.
      Without a version the rewrite is a `KeyError`. */
  function ConfigLine(v: Option<Version>, line: string): Result<string> {
    var fields := SplitOn(Strip(line), '=');
    if |fields| > 1 then
      if v.None? then Err(KeyError) else Ok(fields[0] + "=" + SubVersion(fields[1], VersionText(v.value)) + "\n")
    else Ok(line)
  }

  /** A line without `=` is never changed. */
  lemma ConfigLineKeeps(v: Option<Version>, line: string)
    requires '=' !in line
    ensures ConfigLine(v, line) == Ok(line)
  {
    var t := Strip(line);
    StripSlice(line);
    assert '=' !in t by {
      var i := Lead(line);
      forall k | 0 <= k < |t|
        ensures t[k] != '='
      {
        assert t[k] == line[i + k];
      }
    }
    SplitOnAbsent(t, '=');
  }

  /** `t` reads as a key, `=`, a value, and then nothing or further `=`-fields: the key is
      everything before the first `=`, the value everything up to the next `=`. */
  predicate KeyValue(t: string, key: string, value: string, tail: string) {
    t == key + "=" + value + tail && '=' !in key && '=' !in value && (|tail| == 0 || tail[0] == '=')
  }

  /** A line with `=` becomes its key, `=`, and its value with every version token replaced by
      the version text, on a line of its own; fields after a second `=` are dropped. Without a
      version that is a `KeyError`. */
  lemma ConfigLineRewrites(v: Option<Version>, line: string, key: string, value: string, tail: string)
    requires KeyValue(Strip(line), key, value, tail)
    ensures ConfigLine(v, line) ==
      if v.None? then Err(KeyError) else Ok(key + "=" + SubVersion(value, VersionText(v.value)) + "\n")
  {
    var t := Strip(line);
    assert t == key + ['='] + (value + tail);
    SplitOnAfter(key, value + tail, '=');
    if |tail| == 0 {
      assert value + tail == value;
      SplitOnAbsent(value, '=');
    } else {
      assert value + tail == value + ['='] + tail[1..];
      SplitOnAfter(value, tail[1..], '=');
    }
  }

  /** Every line with `=` reads, once stripped, as a key and a value: the key runs up to the
      first `=`, the value from there up to the next `=` or the end. */
  lemma ConfigLineSplits(line: string)
    requires '=' in line
    ensures FirstOf(Strip(line), '=') < |Strip(line)|
    ensures var t := Strip(line); var i := FirstOf(t, '='); var rest := t[i + 1..];
      var k := FirstOf(rest, '='); KeyValue(t, t[..i], rest[..k], rest[k..])
  {
    StripKeeps(line, '=');
    KeyValueOf(Strip(line));
  }

  /** `strip()` drops only whitespace, so a character that is not whitespace survives it. */
  lemma StripKeeps(line: string, c: char)
    requires c in line && !IsSpace(c)
    ensures c in Strip(line)
  {
    var t := Strip(line);
    var lead := Lead(line);
    StripDropsSpace(line);
    StripSlice(line);
    assert forall k :: 0 <= k < lead ==> IsSpace(line[k]) by {
      forall k | 0 <= k < lead ensures IsSpace(line[k]) { assert line[..lead][k] == line[k]; }
    }
    assert forall k :: lead + |t| <= k < |line| ==> IsSpace(line[k]) by {
      forall k | lead + |t| <= k < |line| ensures IsSpace(line[k]) {
        assert line[lead + |t|..][k - lead - |t|] == line[k];
      }
    }
    var j :| 0 <= j < |line| && line[j] == c;
    assert t[j - lead] == c;
  }

  /** A text with `=` splits at its first two `=` into a key, a value and the rest. */
  lemma KeyValueOf(t: string)
    requires '=' in t
    ensures FirstOf(t, '=') < |t|
    ensures var i := FirstOf(t, '='); var rest := t[i + 1..]; var k := FirstOf(rest, '=');
      KeyValue(t, t[..i], rest[..k], rest[k..])
  {
    var i := FirstOf(t, '=');
    BeforeFirst(t, '=');
    BeforeFirst(t[i + 1..], '=');
    Reassemble(t, i, FirstOf(t[i + 1..], '='));
  }

  /** Cutting a string at an '=' and once more after it, and joining the pieces back. */
  lemma Reassemble(t: string, i: nat, k: nat)
    requires i < |t| && t[i] == '=' && k <= |t| - (i + 1)
    ensures t == t[..i] + "=" + t[i + 1..][..k] + t[i + 1..][k..]
  {
    var rest := t[i + 1..];
    assert rest == rest[..k] + rest[k..];
    assert t == t[..i] + [t[i]] + rest;
  }

  /** Nothing before the first `c` is `c`. */
  lemma BeforeFirst(s: string, c: char)
    ensures c !in s[..FirstOf(s, c)]
  {
    var n := FirstOf(s, c);
    forall m | 0 <= m < n ensures s[..n][m] != c {
      assert s[..n][m] == s[m];
    }
  }

  /** The position of the first `c` in `s`, or `|s|` when there is none. */
  function FirstOf(s: string, c: char): (n: nat)
    ensures n <= |s|
    ensures forall k :: 0 <= k < n ==> s[k] != c
    ensures n < |s| ==> s[n] == c
    ensures c in s ==> n < |s|
    decreases |s|
  {
    if |s| == 0 || s[0] == c then 0 else 1 + FirstOf(s[1..], c)
  }

  /** The configuration rewritten. */
  function ConfigFile(v: Option<Version>, lines: seq<string>): Result<seq<string>> {
    EachLine(l => ConfigLine(v, l), lines)
  }

  /** With a version the configuration is always rewritten and keeps its length; a line
      without `=` is kept, and a line with one becomes its key, `=` and its value with the
      version replaced. */
  lemma ConfigFileOk(v: Version, lines: seq<string>)
    ensures ConfigFile(Some(v), lines).Ok?
    ensures |ConfigFile(Some(v), lines).value| == |lines|
    ensures forall i :: 0 <= i < |lines| && '=' !in lines[i] ==> ConfigFile(Some(v), lines).value[i] == lines[i]
    ensures forall i, key, value, tail :: 0 <= i < |lines| && KeyValue(Strip(lines[i]), key, value, tail) ==>
      ConfigFile(Some(v), lines).value[i] == key + "=" + SubVersion(value, VersionText(v)) + "\n"
  {
    EachLineErr(l => ConfigLine(Some(v), l), lines);
    forall i | 0 <= i < |lines| && '=' !in lines[i]
      ensures ConfigLine(Some(v), lines[i]) == Ok(lines[i])
    {
      ConfigLineKeeps(Some(v), lines[i]);
    }
    forall i, key, value, tail | 0 <= i < |lines| && KeyValue(Strip(lines[i]), key, value, tail)
      ensures ConfigLine(Some(v), lines[i]) == Ok(key + "=" + SubVersion(value, VersionText(v)) + "\n")
    {
      ConfigLineRewrites(Some(v), lines[i], key, value, tail);
    }
  }
}

/** The names of the artifact store: what `validate_component` admits, and why admitted names cannot clash. */
module ArtifactNames {
  const TMP_PREFIX := ".tmp-"

  const RESERVED: set<string> := {
    "CON", "PRN", "AUX", "NUL", "COM1", "COM2", "COM3", "COM4", "COM5", "COM6", "COM7", "COM8", "COM9",
    "LPT1", "LPT2", "LPT3", "LPT4", "LPT5", "LPT6", "LPT7", "LPT8", "LPT9"}

  predicate IsNameChar(c: char) {
    'a' <= c <= 'z' || 'A' <= c <= 'Z' || '0' <= c <= '9' || c == '-' || c == '_' || c == '.'
  }

  function Upper(s: string): string {
    if s == "" then ""
    else [if 'a' <= s[0] <= 'z' then (s[0] as int - 'a' as int + 'A' as int) as char else s[0]] + Upper(s[1..])
  }

  /** The part before the first dot. */
  function Base(s: string): string {
    if s == "" || s[0] == '.' then "" else [s[0]] + Base(s[1..])
  }

  predicate ValidComponent(s: string) {
    && 0 < |s| <= 128
    && s != "." && s != ".."
    && (forall i :: 0 <= i < |s| ==> IsNameChar(s[i]))
    && s[0] != '.' && s[|s| - 1] != '.'
    && Upper(Base(s)) !in RESERVED
  }

  // ----- which names are admitted -----

  function Capital(c: char): char {
    if 'a' <= c <= 'z' then (c as int - 32) as char else c
  }

  /** `name`, in whatever case, is the device name `device`, alone or before a dot. */
  predicate NamesDevice(name: string, device: string) {
    && |device| <= |name|
    && (forall i :: 0 <= i < |device| ==> Capital(name[i]) == device[i] && name[i] != '.')
    && (|name| > |device| ==> name[|device|] == '.')
  }

  /** The device names: four words, and the two ports with their numbers from 1 to 9. */
  predicate IsDevice(device: string) {
    || device == "CON" || device == "PRN" || device == "AUX" || device == "NUL"
    || (|device| == 4 && (device[..3] == "COM" || device[..3] == "LPT") && '1' <= device[3] <= '9')
  }

  lemma {:induction false} DevicesAreReserved(device: string)
    ensures device in RESERVED <==> IsDevice(device)
  {
    if device in RESERVED {
      assert IsDevice(device);
    }
    if IsDevice(device) && |device| == 4 {
      assert device == device[..3] + [device[3]];
      NumberedDevice(device[..3], device[3]);
    }
  }

  lemma {:induction false} NumberedDevice(port: string, number: char)
    requires (port == "COM" || port == "LPT") && '1' <= number <= '9'
    ensures port + [number] in RESERVED
  {
    var d := port + [number];
    assert d[0] == port[0] && d[1] == port[1] && d[2] == port[2] && d[3] == number;
    if port == "COM" {
      assert d == "COM1" || d == "COM2" || d == "COM3" || d == "COM4" || d == "COM5" || d == "COM6" || d == "COM7" ||
             d == "COM8" || d == "COM9";
    } else {
      assert d == "LPT1" || d == "LPT2" || d == "LPT3" || d == "LPT4" || d == "LPT5" || d == "LPT6" || d == "LPT7" ||
             d == "LPT8" || d == "LPT9";
    }
  }

  lemma {:induction false} UpperBaseIs(name: string, device: string)
    requires '.' !in device
    ensures Upper(Base(name)) == device <==> NamesDevice(name, device)
  {
    if name != "" && name[0] != '.' {
      if device != "" {
        UpperBaseIs(name[1..], device[1..]);
        assert Base(name) == [name[0]] + Base(name[1..]) && Base(name)[1..] == Base(name[1..]);
        assert Upper(Base(name)) == [Capital(name[0])] + Upper(Base(name[1..]));
        assert Upper(Base(name))[1..] == Upper(Base(name[1..]));
        assert device == [device[0]] + device[1..];
        NamesDeviceShifts(name, device);
      }
    }
  }

  lemma {:induction false} NamesDeviceShifts(name: string, device: string)
    requires name != "" && device != ""
    ensures NamesDevice(name, device) <==> Capital(name[0]) == device[0] && name[0] != '.' && NamesDevice(name[1..], device[1..])
  {
    if NamesDevice(name, device) {
      assert forall i :: 0 <= i < |device| - 1 ==> name[1..][i] == name[i + 1] && device[1..][i] == device[i + 1];
    }
    if Capital(name[0]) == device[0] && name[0] != '.' && NamesDevice(name[1..], device[1..]) {
      forall i | 0 <= i < |device| ensures Capital(name[i]) == device[i] && name[i] != '.' {
        if i > 0 { assert name[1..][i - 1] == name[i] && device[1..][i - 1] == device[i]; }
      }
    }
  }

  lemma {:induction false} DevicesHaveNoDot(device: string)
    requires IsDevice(device)
    ensures '.' !in device
  {
    if |device| == 4 { assert device == device[..3] + [device[3]]; }
  }

  /**
   Exactly these names are admitted: 1 to 128 ASCII letters, digits, dashes, underscores and dots, no dot
   first or last, and not a device name in any case, alone or with an extension.
   */
  lemma {:induction false} AdmittedExactly(s: string)
    ensures ValidComponent(s) <==>
      && 1 <= |s| <= 128
      && (forall i :: 0 <= i < |s| ==>
            s[i] == '.' || s[i] == '-' || s[i] == '_' || '0' <= s[i] <= '9' || 'A' <= Capital(s[i]) <= 'Z')
      && s[0] != '.' && s[|s| - 1] != '.'
      && !exists device :: IsDevice(device) && NamesDevice(s, device)
  {
    forall device | IsDevice(device) ensures Upper(Base(s)) == device <==> NamesDevice(s, device) {
      DevicesHaveNoDot(device);
      UpperBaseIs(s, device);
    }
    DevicesAreReserved(Upper(Base(s)));
  }

  // ----- paths -----

  /** `root/a/b/...`, for a separator of the platform. */
  function Join(root: string, parts: seq<string>, separator: char): string {
    if parts == [] then root else Join(root, parts[..|parts| - 1], separator) + [separator] + parts[|parts| - 1]
  }

  function Split(path: string, separator: char): seq<string> {
    if path == "" then [""]
    else
      var c, front := path[|path| - 1], Split(path[..|path| - 1], separator);
      if c == separator then front + [""] else front[..|front| - 1] + [front[|front| - 1] + [c]]
  }

  lemma {:induction false} SplitAppendsPart(path: string, part: string, separator: char)
    requires separator !in part
    ensures Split(path + [separator] + part, separator) == Split(path, separator) + [part]
  {
    var whole := path + [separator] + part;
    if part == "" {
      assert whole[..|whole| - 1] == path;
    } else {
      var front := part[..|part| - 1];
      SplitAppendsPart(path, front, separator);
      assert whole[..|whole| - 1] == path + [separator] + front;
      assert part == front + [part[|part| - 1]];
      assert part[|part| - 1] in part;
    }
  }

  lemma {:induction false} SplitUndoesJoin(root: string, parts: seq<string>, separator: char)
    requires forall i :: 0 <= i < |parts| ==> separator !in parts[i]
    ensures Split(Join(root, parts, separator), separator) == Split(root, separator) + parts
  {
    if parts == [] {
      assert Split(root, separator) + parts == Split(root, separator);
    } else {
      var front, last := parts[..|parts| - 1], parts[|parts| - 1];
      SplitUndoesJoin(root, front, separator);
      SplitAppendsPart(Join(root, front, separator), last, separator);
      assert parts == front + [last];
    }
  }

  function ExecutionPath(root: string, project: string, run: string, execution: string, separator: char): string {
    Join(root, [project, run, execution], separator)
  }

  /** The path of an execution lies three levels below the root and splits back into its names. */
  lemma {:induction false} ExecutionPathSplitsBack(root: string, project: string, run: string, execution: string, separator: char)
    requires ValidComponent(project) && ValidComponent(run) && ValidComponent(execution) && (separator == '/' || separator == '\\')
    ensures Split(ExecutionPath(root, project, run, execution, separator), separator)
         == Split(root, separator) + [project, run, execution]
  {
    SplitUndoesJoin(root, [project, run, execution], separator);
  }

  /** Different executions have different paths. */
  lemma {:induction false} ExecutionPathsAreInjective(
    root: string, p1: string, r1: string, e1: string, p2: string, r2: string, e2: string, separator: char)
    requires ValidComponent(p1) && ValidComponent(r1) && ValidComponent(e1)
    requires ValidComponent(p2) && ValidComponent(r2) && ValidComponent(e2) && (separator == '/' || separator == '\\')
    requires ExecutionPath(root, p1, r1, e1, separator) == ExecutionPath(root, p2, r2, e2, separator)
    ensures p1 == p2 && r1 == r2 && e1 == e2
  {
    ExecutionPathSplitsBack(root, p1, r1, e1, separator);
    ExecutionPathSplitsBack(root, p2, r2, e2, separator);
    var n := |Split(root, separator)|;
    var a, b := Split(root, separator) + [p1, r1, e1], Split(root, separator) + [p2, r2, e2];
    assert a[n] == b[n] && a[n + 1] == b[n + 1] && a[n + 2] == b[n + 2];
  }

  // ----- names of the store's own -----

  /** No admitted name, and no spool file of one, is a staging directory, the marker or its temp file. */
  lemma {:induction false} AdmittedNamesAreNotReserved(s: string)
    requires ValidComponent(s)
    ensures !(".tmp-" <= s) && s != ".harness-owner.json" && s != ".harness-owner.json.tmp" && !(TMP_PREFIX <= s)
    ensures var spool := s + ".spool";
      !(".tmp-" <= spool) && spool != ".harness-owner.json" && spool != ".harness-owner.json.tmp"
  {
    assert ".tmp-"[0] == '.' && ".harness-owner.json"[0] == '.' && ".harness-owner.json.tmp"[0] == '.';
    assert (s + ".spool")[0] == s[0];
  }
}

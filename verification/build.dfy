/**
 * Selection of the operating-system provider, `src/modules/system/build.ts`:
 * the platform tests, the Raspberry Pi model table, the Raspberry Pi test
 * over the text of `/proc/cpuinfo`, and the choice of provider. The process
 * platform and the file text are parameters; a failed read is `None`.
 */
module Build {
  import opened Js
  import opened Strings

  /** `platform ? platform : process.platform`. */
  function PlatformOr(platform: Option<string>, processPlatform: string): (p: string)
    ensures Filled(platform) ==> p == platform.value
    ensures !Filled(platform) ==> p == processPlatform
  {
    FilledOr(platform, processPlatform)
  }

  /** `isWindows(platform)`: the platform name contains `win`. */
  predicate IsWindows(platform: Option<string>, processPlatform: string) {
    Contains(PlatformOr(platform, processPlatform), "win")
  }

  /** `isLinux(platform)`: the platform name contains `linux`. */
  predicate IsLinux(platform: Option<string>, processPlatform: string) {
    Contains(PlatformOr(platform, processPlatform), "linux")
  }

  /** Both platform tests are substring tests on the chosen platform name, for every name. */
  lemma PlatformTestsAreSubstringTests(platform: Option<string>, processPlatform: string)
    ensures IsWindows(platform, processPlatform) <==> exists i: nat :: OccursAt(PlatformOr(platform, processPlatform), "win", i)
    ensures IsLinux(platform, processPlatform) <==> exists i: nat :: OccursAt(PlatformOr(platform, processPlatform), "linux", i)
  {
    ContainsIffOccurs(PlatformOr(platform, processPlatform), "win");
    ContainsIffOccurs(PlatformOr(platform, processPlatform), "linux");
  }

  /** The Windows test is a substring test: `win32` passes, and so does macOS's `darwin`. */
  lemma DarwinCountsAsWindows(processPlatform: string)
    ensures IsWindows(Some("win32"), processPlatform)
    ensures IsWindows(Some("darwin"), processPlatform)
    ensures !IsWindows(Some("linux"), processPlatform) && IsLinux(Some("linux"), processPlatform)
  {
    assert OccursAt("win32", "win", 0);
    assert OccursAt("darwin", "win", 3);
    assert OccursAt("linux", "linux", 0);
    assert forall j :: 0 <= j ==> !OccursAt("linux", "win", j) by {
      forall j | 0 <= j
        ensures !OccursAt("linux", "win", j)
      {
        if j + 3 <= 5 {
          assert "linux"[j..j + 3][0] == "linux"[j];
          assert "linux"[j + 1] != 'i' || "linux"[j] != 'w';
        }
      }
    }
  }

  /** `PI_MODEL_IDS`: hardware identifiers and the board family each denotes. */
  const PiModelIds: seq<(string, string)> := [
    ("BCM2708", "Pi"), ("BCM2709", "Pi"), ("BCM2710", "Pi"),
    ("BCM2835", "Pi1/zero"), ("BCM2836", "Pi2"), ("BCM2837", "Pi2/Pi3"),
    ("BCM2837B0", "Pi3B+/Pi3A+"), ("BCM2711", "Pi4B"), ("BCM2712", "Pi5")]

  /** The hardware identifiers of the table start with `BCM`, and every model name is non-empty. */
  lemma PiModelIdsShape()
    ensures forall j :: 0 <= j < |PiModelIds| ==>
              OccursAt(PiModelIds[j].0, "BCM", 0) && PiModelIds[j].1 != ""
  {
  }

  /** `PI_MODEL_IDS[id]` restricted to the table's own keys. */
  function PiModel(id: string): (m: Option<string>)
    ensures m.Some? <==> exists j :: 0 <= j < |PiModelIds| && PiModelIds[j].0 == id
    ensures m.Some? ==> m.value != ""
  {
    PiModelIdsShape();
    LookUp(PiModelIds, id)
  }

  /** The value of the first pair whose key is `key`. */
  function LookUp(table: seq<(string, string)>, key: string): (m: Option<string>)
    ensures m.Some? <==> exists j :: 0 <= j < |table| && table[j].0 == key
    ensures m.Some? ==> exists j :: 0 <= j < |table| && table[j] == (key, m.value)
  {
    if |table| == 0 then None
    else if table[0].0 == key then Some(table[0].1)
    else
      var m := LookUp(table[1..], key);
      assert forall j :: 1 <= j < |table| ==> table[j] == table[1..][j - 1];
      if m.Some? then
        var j :| 0 <= j < |table[1..]| && table[1..][j] == (key, m.value);
        assert table[j + 1] == (key, m.value);
        m
      else m
  }

  /** Every key of the table looks up a model. */
  lemma PiModelOfKey(j: int)
    requires 0 <= j < |PiModelIds|
    ensures PiModel(PiModelIds[j].0).Some?
  {
  }

  /** A key that starts with `Hardware` is never a key of the table. */
  lemma HardwarePrefixIsNoKey(id: string)
    requires OccursAt(id, "Hardware", 0)
    ensures PiModel(id).None?
  {
    PiModelIdsShape();
    assert id[0] == id[0..8][0] == 'H';
    forall j | 0 <= j < |PiModelIds|
      ensures PiModelIds[j].0 != id
    {
      assert PiModelIds[j].0[0] == PiModelIds[j].0[0..3][0] == 'B';
    }
  }

  // ------------------------------------------------------------------ as written

  /**
   * The hardware identifier as `isRaspbian` computes it: the rest of the
   * whole text from the first `Hardware` on, or the whole text when there is
   * none (`substring(-1)`).
   */
  function HardwareIdAsWritten(info: string): (id: string)
    ensures IndexOf(info, "Hardware").Some? ==> OccursAt(id, "Hardware", 0)
    ensures IndexOf(info, "Hardware").None? ==> id == info
  {
    match IndexOf(info, "Hardware")
    case None => info
    case Some(i) =>
      assert info[i..][0..8] == info[i..i + 8];
      info[i..]
  }

  /** `isRaspbian()` as written; a failed read of `/proc/cpuinfo` is caught and gives `undefined`. */
  function IsRaspbianAsWritten(cpuinfo: Option<string>): (m: Option<string>)
    ensures cpuinfo.None? ==> m.None?
  {
    if cpuinfo.None? then None else PiModel(HardwareIdAsWritten(cpuinfo.value))
  }

  /**
   * A `/proc/cpuinfo` that has a `Hardware` line is never recognised: the
   * looked-up text begins with `Hardware`, while every key begins with `BCM`.
   */
  lemma RaspbianNeverRecognisedAsWritten(info: string)
    requires Contains(info, "Hardware")
    ensures IsRaspbianAsWritten(Some(info)).None?
  {
    HardwarePrefixIsNoKey(HardwareIdAsWritten(info));
  }

  // ------------------------------------------------------------------ corrected

  /** The text after the first `:` of a line, if there is one. */
  function AfterColon(line: string): (r: Option<string>)
    ensures r.None? <==> ':' !in line
    ensures r.Some? ==> |r.value| < |line| && r.value == line[|line| - |r.value|..]
  {
    if |line| == 0 then None
    else if line[0] == ':' then Some(line[1..])
    else
      var r := AfterColon(line[1..]);
      assert forall c :: c in line <==> c == line[0] || c in line[1..];
      r
  }

  /** The text after a colon that follows a colon-free head. */
  lemma {:induction false} AfterColonSkip(a: string, b: string)
    requires ':' !in a
    ensures AfterColon(a + [':'] + b) == Some(b)
    decreases |a|
  {
    if |a| == 0 {
      assert a + [':'] + b == [':'] + b;
    } else {
      assert (a + [':'] + b)[1..] == a[1..] + [':'] + b;
      AfterColonSkip(a[1..], b);
    }
  }

  /** The trimmed value of a `Hardware : <id>` line. */
  function HardwareValue(line: string): (v: Option<string>)
    ensures v.Some? ==> OccursAt(line, "Hardware", 0) && ':' in line
  {
    if OccursAt(line, "Hardware", 0) then
      match AfterColon(line)
      case None => None
      case Some(rest) => Some(Trim(rest))
    else None
  }

  /** No line of `lines` is a `Hardware` line with a colon. */
  predicate NoHardwareLine(lines: seq<string>) {
    forall i :: 0 <= i < |lines| ==> HardwareValue(lines[i]).None?
  }

  /** The value of the first `Hardware` line. */
  function FirstHardware(lines: seq<string>): (v: Option<string>)
    ensures v.None? <==> NoHardwareLine(lines)
  {
    if |lines| == 0 then None
    else if HardwareValue(lines[0]).Some? then HardwareValue(lines[0])
    else
      assert forall i :: 1 <= i < |lines| ==> lines[i] == lines[1..][i - 1];
      FirstHardware(lines[1..])
  }

  /**
   * The hardware identifier read the way the `/proc/cpuinfo` format lays it
   * out: the trimmed text after the colon of the first line that starts with
   * `Hardware`.
   */
  function HardwareId(info: string): (id: Option<string>)
    ensures id.None? <==> NoHardwareLine(Split(info, {'\n'}))
  {
    var lines := Split(info, {'\n'});
    FirstHardware(lines)
  }

  /** The corrected `isRaspbian()`: the model of the identifier on the `Hardware` line. */
  function IsRaspbian(cpuinfo: Option<string>): (m: Option<string>)
    ensures cpuinfo.None? ==> m.None?
    ensures m.Some? ==> m.value != "" && HardwareId(cpuinfo.value).Some?
    ensures m.Some? ==> m == PiModel(HardwareId(cpuinfo.value).value)
  {
    if cpuinfo.None? then None
    else match HardwareId(cpuinfo.value)
      case None => None
      case Some(id) => PiModel(id)
  }

  /** Trimming a single leading space off a trimmed word gives the word. */
  lemma TrimSpacedWord(k: string)
    requires k != "" && !IsJsWhitespace(k[0]) && !IsJsWhitespace(k[|k| - 1])
    ensures Trim(" " + k) == k
  {
    assert (" " + k)[1..] == k;
    assert TrimStart(" " + k) == TrimStart(k) == k;
    assert TrimEnd(k) == k;
  }

  /**
   * A `/proc/cpuinfo` whose first line is `Hardware\t: <id>` yields that
   * identifier, whatever follows.
   */
  lemma HardwareIdOfFirstLine(head: string, k: string, rest: string)
    requires head == "Hardware\t"
    requires k != "" && '\n' !in k && !IsJsWhitespace(k[0]) && !IsJsWhitespace(k[|k| - 1])
    ensures HardwareId(head + ": " + k + "\n" + rest) == Some(k)
  {
    var line := head + [':'] + (" " + k);
    assert head + ": " + k + "\n" + rest == line + ['\n'] + rest;
    assert '\n' !in line by {
      forall j | 0 <= j < |line|
        ensures line[j] != '\n'
      {
        if j >= |head| + 2 {
          assert line[j] == k[j - |head| - 2];
        }
      }
    }
    SplitAtSeparator(line, '\n', rest);
    assert line[0..8] == head[0..8] == "Hardware";
    assert ':' !in head;
    AfterColonSkip(head, " " + k);
    TrimSpacedWord(k);
    assert HardwareValue(line) == Some(k);
  }

  /** With the corrected reading, a Raspberry Pi's `Hardware\t: <id>` line is recognised. */
  lemma RaspbianRecognised(head: string, j: int, rest: string)
    requires head == "Hardware\t"
    requires 0 <= j < |PiModelIds|
    ensures IsRaspbian(Some(head + ": " + PiModelIds[j].0 + "\n" + rest)) == PiModel(PiModelIds[j].0)
    ensures IsRaspbian(Some(head + ": " + PiModelIds[j].0 + "\n" + rest)).Some?
  {
    var k := PiModelIds[j].0;
    assert k != "" && '\n' !in k && !IsJsWhitespace(k[0]) && !IsJsWhitespace(k[|k| - 1]);
    HardwareIdOfFirstLine(head, k, rest);
  }

  // ------------------------------------------------------------------ provider choice

  /** The provider `getSystemProvider` constructs. */
  datatype SystemProvider = FromFactory | WindowsProvider | RaspbianProvider(model: string) | LinuxProvider

  /**
   * `getSystemProvider(factory)` over the board test's answer `board`: the
   * factory's provider when a factory function is given; otherwise Windows,
   * else (on Linux) the Raspberry Pi provider when the board test names a
   * model and the Linux provider when not; `undefined` on any other
   * platform.
   */
  function ChooseProvider(hasFactory: bool, processPlatform: string, board: Option<string>): (r: Option<SystemProvider>)
    ensures hasFactory ==> r == Some(FromFactory)
    ensures !hasFactory && IsWindows(Some(processPlatform), processPlatform) ==> r == Some(WindowsProvider)
    ensures !hasFactory && !IsWindows(Some(processPlatform), processPlatform) && IsLinux(Some(processPlatform), processPlatform) ==>
              r == (if board.Some? && board.value != "" then Some(RaspbianProvider(board.value)) else Some(LinuxProvider))
    ensures r.None? <==> !hasFactory && !IsWindows(Some(processPlatform), processPlatform) && !IsLinux(Some(processPlatform), processPlatform)
  {
    if hasFactory then Some(FromFactory)
    else if IsWindows(Some(processPlatform), processPlatform) then Some(WindowsProvider)
    else if IsLinux(Some(processPlatform), processPlatform) then
      match board
      case Some(model) => if model != "" then Some(RaspbianProvider(model)) else Some(LinuxProvider)
      case None => Some(LinuxProvider)
    else None
  }

  /**
   * `getSystemProvider(factory)` as written, with `isRaspbian` as written:
   * on Linux a `/proc/cpuinfo` that has a `Hardware` line never selects the
   * Raspberry Pi provider; off the Linux branch it chooses as the corrected
   * selection does.
   */
  function GetSystemProviderAsWritten(hasFactory: bool, processPlatform: string, cpuinfo: Option<string>): (r: Option<SystemProvider>)
    ensures cpuinfo.None? || Contains(cpuinfo.value, "Hardware") ==> r.None? || !r.value.RaspbianProvider?
    ensures hasFactory || !IsLinux(Some(processPlatform), processPlatform) || IsWindows(Some(processPlatform), processPlatform) ==>
              r == GetSystemProvider(hasFactory, processPlatform, cpuinfo)
  {
    var board := IsRaspbianAsWritten(cpuinfo);
    if cpuinfo.Some? && Contains(cpuinfo.value, "Hardware") then
      RaspbianNeverRecognisedAsWritten(cpuinfo.value);
      ChooseProvider(hasFactory, processPlatform, board)
    else ChooseProvider(hasFactory, processPlatform, board)
  }

  /**
   * The corrected `getSystemProvider(factory)`: the same choice, with the
   * board read from the `Hardware` line.
   */
  function GetSystemProvider(hasFactory: bool, processPlatform: string, cpuinfo: Option<string>): (r: Option<SystemProvider>)
    ensures hasFactory ==> r == Some(FromFactory)
    ensures !hasFactory && IsWindows(Some(processPlatform), processPlatform) ==> r == Some(WindowsProvider)
    ensures !hasFactory && !IsWindows(Some(processPlatform), processPlatform) && IsLinux(Some(processPlatform), processPlatform) ==>
              r == (if IsRaspbian(cpuinfo).Some? then Some(RaspbianProvider(IsRaspbian(cpuinfo).value)) else Some(LinuxProvider))
    ensures r.None? <==> !hasFactory && !IsWindows(Some(processPlatform), processPlatform) && !IsLinux(Some(processPlatform), processPlatform)
  {
    ChooseProvider(hasFactory, processPlatform, IsRaspbian(cpuinfo))
  }

  /** On `linux` the choice is between the Raspberry Pi and the plain Linux provider, by the cpu text alone. */
  lemma LinuxChoosesByBoard(cpuinfo: Option<string>)
    ensures GetSystemProvider(false, "linux", cpuinfo) ==
              if IsRaspbian(cpuinfo).Some? then Some(RaspbianProvider(IsRaspbian(cpuinfo).value)) else Some(LinuxProvider)
    ensures GetSystemProviderAsWritten(false, "linux", cpuinfo) ==
              if IsRaspbianAsWritten(cpuinfo).Some? then Some(RaspbianProvider(IsRaspbianAsWritten(cpuinfo).value)) else Some(LinuxProvider)
  {
    DarwinCountsAsWindows("linux");
  }

  /**
   * On a Raspberry Pi whose `/proc/cpuinfo` starts with `Hardware\t: <id>`,
   * the source chooses the plain Linux provider, the corrected selection
   * the Raspberry Pi provider for that board's model.
   */
  lemma PiOnLinuxChosenAsWrittenAndCorrected(head: string, j: int, rest: string)
    requires head == "Hardware\t"
    requires 0 <= j < |PiModelIds|
    ensures var info := head + ": " + PiModelIds[j].0 + "\n" + rest;
            && GetSystemProviderAsWritten(false, "linux", Some(info)) == Some(LinuxProvider)
            && GetSystemProvider(false, "linux", Some(info)) == Some(RaspbianProvider(PiModel(PiModelIds[j].0).value))
  {
    var info := head + ": " + PiModelIds[j].0 + "\n" + rest;
    RaspbianRecognised(head, j, rest);
    assert OccursAt(info, "Hardware", 0) by {
      assert info[0..8] == head[0..8];
    }
    ContainsIffOccurs(info, "Hardware");
    LinuxChoosesByBoard(Some(info));
  }
}

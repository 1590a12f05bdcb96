/** The user settings record and the serial console that edits it: lines
    are assembled from single characters, validated as `X` or `X=digits`,
    and dispatched to a setter that clamps each value into its range. */
module Settings {

  import opened Platform

  const SettingsVersion: int := 2
  const ReadBufferLen: int := 10

  const NumLeds: int := 30
  const MinLeds: int := 30

  const DefaultBrightness: int := 150
  const MinBrightness: int := 10
  const MaxBrightness: int := 255

  const LivesPerLevel: int := 3
  const MinLivesPerLevel: int := 3
  const MaxLivesPerLevel: int := 9

  const DefaultAttackThreshold: int := 30000
  const MinAttackThreshold: int := 20000
  const MaxAttackThreshold: int := 30000

  const DefaultJoystickDeadzone: int := 8
  const MinJoystickDeadzone: int := 3
  const MaxJoystickDeadzone: int := 12

  const DefaultVolume: int := 20
  const MinVolume: int := 0
  const MaxVolume: int := 255

  datatype Option<T> = None | Some(value: T)

  // ---------------------------------------------------------------------------
  // The settings record as a value

  datatype Config = Config(
    version: int,
    ledCount: int,
    ledBrightness: int,
    joystickDeadzone: int,
    attackThreshold: int,
    audioVolume: int,
    livesPerLevel: int,
    gamesPlayed: int,
    totalPoints: int,
    highScore: int,
    bossKills: int)

  /** The play statistics kept beside the configuration. */
  function Stats(c: Config): (int, int, int, int) {
    (c.gamesPlayed, c.totalPoints, c.highScore, c.bossKills)
  }

  /** The factory settings `reset_settings` writes. */
  function Defaults(): Config {
    Config(SettingsVersion, NumLeds, DefaultBrightness, DefaultJoystickDeadzone,
           DefaultAttackThreshold, DefaultVolume, LivesPerLevel, 0, 0, 0, 0)
  }

  /** The configuration fields a value command can set. */
  datatype Field = LedCount | Brightness | Volume | Deadzone | AttackThreshold | Lives

  /** The field a command letter names, if any. */
  function FieldOf(code: char): Option<Field> {
    match code
    case 'C' => Some(LedCount)
    case 'B' => Some(Brightness)
    case 'S' => Some(Volume)
    case 'D' => Some(Deadzone)
    case 'A' => Some(AttackThreshold)
    case 'L' => Some(Lives)
    case _ => None
  }

  /** The smallest value a field accepts. */
  function Lo(f: Field): int {
    match f
    case LedCount => MinLeds
    case Brightness => MinBrightness
    case Volume => MinVolume
    case Deadzone => MinJoystickDeadzone
    case AttackThreshold => MinAttackThreshold
    case Lives => MinLivesPerLevel
  }

  /** The largest value a field accepts; `maxLeds` is the build's MAX_LEDS. */
  function Hi(f: Field, maxLeds: int): int {
    match f
    case LedCount => maxLeds
    case Brightness => MaxBrightness
    case Volume => MaxVolume
    case Deadzone => MaxJoystickDeadzone
    case AttackThreshold => MaxAttackThreshold
    case Lives => MaxLivesPerLevel
  }

  function Get(c: Config, f: Field): int {
    match f
    case LedCount => c.ledCount
    case Brightness => c.ledBrightness
    case Volume => c.audioVolume
    case Deadzone => c.joystickDeadzone
    case AttackThreshold => c.attackThreshold
    case Lives => c.livesPerLevel
  }

  /** `c` with field `f` set to `v`, and nothing else changed. */
  function Put(c: Config, f: Field, v: int): (r: Config)
    ensures Get(r, f) == v
    ensures forall g :: g != f ==> Get(r, g) == Get(c, g)
    ensures Stats(r) == Stats(c) && r.version == c.version
  {
    match f
    case LedCount => c.(ledCount := v)
    case Brightness => c.(ledBrightness := v)
    case Volume => c.(audioVolume := v)
    case Deadzone => c.(joystickDeadzone := v)
    case AttackThreshold => c.(attackThreshold := v)
    case Lives => c.(livesPerLevel := v)
  }

  /** The factory settings lie within every field's range. */
  lemma DefaultsInRange(maxLeds: int)
    requires MinLeds <= maxLeds
    ensures Defaults().version == SettingsVersion
    ensures forall f :: Lo(f) <= Get(Defaults(), f) <= Hi(f, maxLeds)
    ensures Stats(Defaults()) == (0, 0, 0, 0)
  {
    forall f ensures Lo(f) <= Get(Defaults(), f) <= Hi(f, maxLeds) {
      match f
      case LedCount =>
      case Brightness =>
      case Volume =>
      case Deadzone =>
      case AttackThreshold =>
      case Lives =>
    }
  }

  /** Arduino's `constrain`: the point of [lo, hi] nearest to `x`. */
  function Constrain(x: int, lo: int, hi: int): (r: int)
    requires lo <= hi
    ensures lo <= r <= hi
    ensures lo <= x <= hi ==> r == x
    ensures x < lo ==> r == lo
    ensures x > hi ==> r == hi
  {
    if x < lo then lo else if x > hi then hi else x
  }

  // ---------------------------------------------------------------------------
  // What a command does: the new record and the outward actions, in order

  /** The effects that leave the settings module. */
  datatype Action =
    | StoreSettings            // settings_eeprom_write
    | ApplyBrightness(level: int)  // FastLED.setBrightness
    | ShowSettingsMenu
    | ShowGameStats
    | Restart                  // ESP.restart
    | Report                   // an informational serial line
    | ReportError              // an error serial line
    | AssertionFailure         // a failed assert in settings_fromString

  datatype Outcome = Outcome(config: Config, actions: seq<Action>)

  /** What `reset_settings` prints and stores after writing the defaults. */
  function ResetActions(): seq<Action> {
    [Report, StoreSettings]
  }

  /** `settings_set(code, hasValue, value)` applied to `c`. */
  function SetSpec(c: Config, maxLeds: int, code: char, hasValue: bool, value: int): (r: Outcome)
    requires MinLeds <= maxLeds
    ensures hasValue && FieldOf(code).Some? ==>
      var f := FieldOf(code).value;
      && Lo(f) <= Get(r.config, f) <= Hi(f, maxLeds)
      && Get(r.config, f) == Constrain(value, Lo(f), Hi(f, maxLeds))
      && (Lo(f) <= value <= Hi(f, maxLeds) ==> Get(r.config, f) == value)
      && (forall g :: g != f ==> Get(r.config, g) == Get(c, g))
      && Stats(r.config) == Stats(c) && r.config.version == c.version
      && StoreSettings in r.actions
    ensures hasValue && FieldOf(code).None? ==> r == Outcome(c, [ReportError])
    ensures !hasValue && code == 'R' ==> r.config == Defaults()
    ensures !hasValue && code == 'P' ==>
      && Stats(r.config) == (0, 0, 0, 0)
      && (forall f :: Get(r.config, f) == Get(c, f))
      && r.config.version == c.version
    ensures !hasValue && code != 'R' && code != 'P' ==> r.config == c
  {
    if hasValue then
      match FieldOf(code)
      case Some(f) =>
        var v := Constrain(value, Lo(f), Hi(f, maxLeds));
        Outcome(Put(c, f, v), (if f == Brightness then [ApplyBrightness(v)] else []) + [StoreSettings, Report])
      case None => Outcome(c, [ReportError])
    else if code == '?' then Outcome(c, [ShowGameStats, ShowSettingsMenu])
    else if code == 'R' then Outcome(Defaults(), ResetActions() + [StoreSettings, ShowSettingsMenu])
    else if code == 'P' then
      Outcome(c.(gamesPlayed := 0, totalPoints := 0, highScore := 0, bossKills := 0), [StoreSettings])
    else if code == '!' then Outcome(c, [Restart])
    else Outcome(c, [ReportError])
  }

  // ---------------------------------------------------------------------------
  // Parsing a line

  predicate IsDigit(ch: char) {
    '0' <= ch <= '9'
  }

  predicate AllDigits(s: seq<char>) {
    forall i :: 0 <= i < |s| ==> IsDigit(s[i])
  }

  function Pow10(k: nat): (p: nat)
    ensures p >= 1
  {
    if k == 0 then 1 else 10 * Pow10(k - 1)
  }

  /** The decimal value of a run of digits, as `atoi` reads it. */
  function DigitsValue(s: seq<char>): (n: nat)
    requires AllDigits(s)
    ensures n < Pow10(|s|)
  {
    if s == [] then 0
    else 10 * DigitsValue(s[..|s| - 1]) + (s[|s| - 1] as int - '0' as int)
  }

  function DigitChar(d: int): (ch: char)
    requires 0 <= d < 10
    ensures IsDigit(ch)
  {
    ('0' as int + d) as char
  }

  /** The decimal rendering of `n`, as the settings menu prints values. */
  function Decimal(n: nat): (s: seq<char>)
    ensures AllDigits(s) && |s| >= 1
  {
    if n < 10 then [DigitChar(n)] else Decimal(n / 10) + [DigitChar(n % 10)]
  }

  /** Reading back a rendered number gives the number. */
  lemma {:induction false} DecimalRoundTrip(n: nat)
    ensures DigitsValue(Decimal(n)) == n
  {
    if n >= 10 {
      var s := Decimal(n);
      assert s[..|s| - 1] == Decimal(n / 10);
      DecimalRoundTrip(n / 10);
    }
  }

  /** A number below 10^k renders in at most k digits. */
  lemma {:induction false} DecimalLength(n: nat, k: nat)
    requires k >= 1 && n < Pow10(k)
    ensures |Decimal(n)| <= k
  {
    if n >= 10 {
      assert n / 10 < Pow10(k - 1);
      DecimalLength(n / 10, k - 1);
    }
  }

  datatype Command = Command(code: char, hasValue: bool, value: int)

  datatype Parsed = Dispatch(cmd: Command) | Malformed | AssertionFailed

  /** The validation in `settings_fromString`: a line of length 1 is a bare
      command, a longer one must read `X=digits`; the digits' value reaches
      the setter converted to `uint16_t`. The assertions on the length fail
      for an empty or overlong line. */
  function ParseLine(line: seq<char>): (r: Parsed)
    ensures r.AssertionFailed? <==> |line| == 0 || |line| >= ReadBufferLen
    ensures r.Dispatch? <==>
      0 < |line| < ReadBufferLen
      && (|line| == 1 || (|line| >= 3 && line[1] == '=' && AllDigits(line[2..])))
    ensures r.Dispatch? ==>
      && r.cmd.code == line[0]
      && (r.cmd.hasValue <==> |line| > 1)
      && 0 <= r.cmd.value < 0x1_0000
      && (r.cmd.hasValue ==> r.cmd.value == DigitsValue(line[2..]) % 0x1_0000)
  {
    if |line| == 0 || |line| >= ReadBufferLen then AssertionFailed
    else if |line| == 1 then Dispatch(Command(line[0], false, 0))
    else if |line| < 3 then Malformed
    else if line[1] != '=' then Malformed
    else if !AllDigits(line[2..]) then Malformed
    else Dispatch(Command(line[0], true, DigitsValue(line[2..]) % 0x1_0000))
  }

  /** A value line `X=` followed by a number of up to seven digits reaches
      the setter as that number reduced to 16 bits. */
  lemma ValueLineWraps(code: char, n: nat)
    requires n < 10_000_000
    ensures ParseLine([code, '='] + Decimal(n)) == Dispatch(Command(code, true, n % 0x1_0000))
  {
    var line := [code, '='] + Decimal(n);
    assert Pow10(7) == 10_000_000;
    DecimalLength(n, 7);
    assert line[2..] == Decimal(n);
    DecimalRoundTrip(n);
  }

  /** A value line as the menu shows it, `X=` and the value in decimal, reads
      back as that value for that letter. */
  lemma ValueLineRoundTrip(code: char, n: nat)
    requires n < 0x1_0000
    ensures ParseLine([code, '='] + Decimal(n)) == Dispatch(Command(code, true, n))
  {
    ValueLineWraps(code, n);
    SixteenBitsKept(n);
  }

  lemma SixteenBitsKept(n: nat)
    requires n < 0x1_0000
    ensures n % 0x1_0000 == n
  {
  }

  /** `A=65536` reaches the setter as 0. */
  lemma ValueWrapsExample()
    ensures ParseLine(['A', '='] + Decimal(65536)) == Dispatch(Command('A', true, 0))
  {
    ValueLineWraps('A', 65536);
  }

  /** `settings_fromString(line)` applied to `c`. */
  function LineSpec(c: Config, maxLeds: int, line: seq<char>): (r: Outcome)
    requires MinLeds <= maxLeds
    ensures !ParseLine(line).Dispatch? ==> r.config == c
  {
    match ParseLine(line)
    case Dispatch(cmd) => SetSpec(c, maxLeds, cmd.code, cmd.hasValue, cmd.value)
    case Malformed => Outcome(c, [ReportError])
    case AssertionFailed => Outcome(c, [AssertionFailure])
  }

  /** A line rejected by the validation changes no setting. */
  lemma MalformedLinesChangeNothing(c: Config, maxLeds: int, line: seq<char>)
    requires MinLeds <= maxLeds
    requires 0 < |line| < ReadBufferLen
    requires |line| == 2 || (|line| > 2 && line[1] != '=')
             || (|line| > 2 && exists i :: 2 <= i < |line| && !IsDigit(line[i]))
    ensures LineSpec(c, maxLeds, line) == Outcome(c, [ReportError])
  {
    if |line| > 2 && line[1] == '=' {
      var i :| 2 <= i < |line| && !IsDigit(line[i]);
      assert !IsDigit(line[2..][i - 2]);
    }
  }

  // ---------------------------------------------------------------------------
  // Assembling lines from characters

  datatype Received = Received(pending: seq<char>, line: Option<seq<char>>)

  /** One character into `settings_processSerial`: carriage return is
      ignored, newline hands over the pending characters, any other character
      is buffered unless nine are already pending, in which case the buffer
      is emptied and the character dropped. */
  function ReadStep(pending: seq<char>, ch: char): (r: Received)
    requires |pending| < ReadBufferLen
    ensures |r.pending| < ReadBufferLen
    ensures r.line.Some? <==> ch == '\n'
    ensures ch == '\n' ==> r.line.value == pending && r.pending == []
    ensures ch == '\r' ==> r.pending == pending
  {
    if ch == '\r' then Received(pending, None)
    else if ch == '\n' then Received([], Some(pending))
    else if |pending| == ReadBufferLen - 1 then Received([], None)
    else Received(pending + [ch], None)
  }

  /** The pending characters and the lines handed over after feeding a whole
      input, one character at a time. */
  function ReadAll(pending: seq<char>, input: seq<char>): (r: (seq<char>, seq<seq<char>>))
    requires |pending| < ReadBufferLen
    ensures |r.0| < ReadBufferLen
    ensures forall i :: 0 <= i < |r.1| ==> |r.1[i]| < ReadBufferLen
    decreases |input|
  {
    if input == [] then (pending, [])
    else
      var step := ReadStep(pending, input[0]);
      var rest := ReadAll(step.pending, input[1..]);
      (rest.0, (if step.line.Some? then [step.line.value] else []) + rest.1)
  }

  predicate PlainText(s: seq<char>) {
    forall i :: 0 <= i < |s| ==> s[i] != '\r' && s[i] != '\n'
  }

  /** A plain character that fits is buffered, and feeding carries on from
      there. */
  lemma FeedPlain(pending: seq<char>, ch: char, rest: seq<char>)
    requires ch != '\r' && ch != '\n' && |pending| + 1 < ReadBufferLen
    ensures ReadAll(pending, [ch] + rest) == ReadAll(pending + [ch], rest)
  {
    var input := [ch] + rest;
    assert input[0] == ch && input[1..] == rest;
    assert ReadStep(pending, ch) == Received(pending + [ch], None);
    var after := ReadAll(pending + [ch], rest);
    assert [] + after.1 == after.1;
  }

  /** Characters that fit are appended to the pending ones, and no line is
      handed over. */
  lemma {:induction false} FeedText(pending: seq<char>, text: seq<char>)
    requires PlainText(text) && |pending| + |text| < ReadBufferLen
    ensures ReadAll(pending, text) == (pending + text, [])
    decreases |text|
  {
    if text == [] {
      assert pending + text == pending;
    } else {
      assert text == [text[0]] + text[1..];
      FeedPlain(pending, text[0], text[1..]);
      assert PlainText(text[1..]);
      FeedText(pending + [text[0]], text[1..]);
      assert pending + [text[0]] + text[1..] == pending + text;
    }
  }

  /** A line of up to nine characters followed by a newline reaches the
      parser exactly as typed, and leaves the buffer empty. */
  lemma {:induction false} FeedLine(pending: seq<char>, text: seq<char>)
    requires PlainText(text) && |pending| + |text| < ReadBufferLen
    ensures ReadAll(pending, text + ['\n']) == ([], [pending + text])
    decreases |text|
  {
    if text == [] {
      var input := text + ['\n'];
      assert input[0] == '\n' && input[1..] == [];
      assert pending + text == pending;
      assert [pending] + [] == [pending];
    } else {
      assert text + ['\n'] == [text[0]] + (text[1..] + ['\n']);
      FeedPlain(pending, text[0], text[1..] + ['\n']);
      assert PlainText(text[1..]);
      FeedLine(pending + [text[0]], text[1..]);
      assert pending + [text[0]] + text[1..] == pending + text;
    }
  }

  /** The tenth character of a line without a newline empties the buffer and
      is itself dropped. */
  lemma OverlongTextDropped(text: seq<char>)
    requires PlainText(text) && |text| == ReadBufferLen
    ensures ReadAll([], text) == ([], [])
  {
    var head := text[..ReadBufferLen - 1];
    FeedText([], head);
    assert text == head + [text[ReadBufferLen - 1]];
    ReadAllAppend([], head, [text[ReadBufferLen - 1]]);
  }

  /** Feeding two inputs in turn is feeding their concatenation. */
  lemma {:induction false} ReadAllAppend(pending: seq<char>, a: seq<char>, b: seq<char>)
    requires |pending| < ReadBufferLen
    ensures var first := ReadAll(pending, a);
      var second := ReadAll(first.0, b);
      ReadAll(pending, a + b) == (second.0, first.1 + second.1)
    decreases |a|
  {
    if a == [] {
      assert a + b == b;
      assert [] + ReadAll(pending, b).1 == ReadAll(pending, b).1;
    } else {
      assert (a + b)[0] == a[0];
      assert (a + b)[1..] == a[1..] + b;
      var step := ReadStep(pending, a[0]);
      var emitted: seq<seq<char>> := if step.line.Some? then [step.line.value] else [];
      ReadAllAppend(step.pending, a[1..], b);
      var rest := ReadAll(step.pending, a[1..]);
      var second := ReadAll(rest.0, b);
      assert ReadAll(pending, a) == (rest.0, emitted + rest.1);
      assert emitted + (rest.1 + second.1) == (emitted + rest.1) + second.1;
    }
  }

  /** A bare newline hands an empty line to the parser, whose length
      assertion then fails. */
  lemma EmptyLineFailsAssertion()
    ensures ReadAll([], ['\n']) == ([], [[]])
    ensures ParseLine([]) == AssertionFailed
  {
    var input := ['\n'];
    assert input[0] == '\n' && input[1..] == [];
    assert ReadStep([], '\n') == Received([], Some([]));
    var none: seq<char> := [];
    assert [none] + [] == [none];
  }

  // ---------------------------------------------------------------------------
  // The global record and the serial console

  class UserSettings {
    /** MAX_LEDS, defined outside this file by the build. */
    const maxLeds: int

    var version: int
    var ledCount: int
    var ledBrightness: int
    var joystickDeadzone: int
    var attackThreshold: int
    var audioVolume: int
    var livesPerLevel: int
    var gamesPlayed: int
    var totalPoints: int
    var highScore: int
    var bossKills: int

    /** `lastInputTime`, the screensaver's reference point. */
    var lastInputTime: int

    ghost predicate Valid()
      reads this
    {
      MinLeds <= maxLeds
    }

    ghost function Current(): Config
      reads this
    {
      Config(version, ledCount, ledBrightness, joystickDeadzone, attackThreshold,
             audioVolume, livesPerLevel, gamesPlayed, totalPoints, highScore, bossKills)
    }

    /** The zero-initialised global record, before anything is loaded. */
    constructor (maxLeds: int)
      requires MinLeds <= maxLeds
      ensures Valid() && this.maxLeds == maxLeds
      ensures Current() == Config(0, 0, 0, 0, 0, 0, 0, 0, 0, 0, 0) && lastInputTime == 0
    {
      this.maxLeds := maxLeds;
      version, ledCount, ledBrightness, joystickDeadzone := 0, 0, 0, 0;
      attackThreshold, audioVolume, livesPerLevel := 0, 0, 0;
      gamesPlayed, totalPoints, highScore, bossKills := 0, 0, 0, 0;
      lastInputTime := 0;
    }

    /** `reset_settings`. */
    method ResetSettings() returns (actions: seq<Action>)
      requires Valid()
      modifies this
      ensures Valid() && Current() == Defaults() && actions == ResetActions()
      ensures lastInputTime == old(lastInputTime)
    {
      version := SettingsVersion;
      ledCount := NumLeds;
      ledBrightness := DefaultBrightness;
      joystickDeadzone := DefaultJoystickDeadzone;
      attackThreshold := DefaultAttackThreshold;
      audioVolume := DefaultVolume;
      livesPerLevel := LivesPerLevel;
      gamesPlayed := 0;
      totalPoints := 0;
      highScore := 0;
      bossKills := 0;
      actions := [Report, StoreSettings];
    }

    /** `settings_set`; `now` is the `millis()` reading at the call. */
    method Set(code: char, hasValue: bool, newValue: int, now: int) returns (actions: seq<Action>)
      requires Valid() && 0 <= newValue < 0x1_0000 && IsMillis(now)
      modifies this
      ensures Valid()
      ensures Outcome(Current(), actions) == SetSpec(old(Current()), maxLeds, code, hasValue, newValue)
      ensures lastInputTime == Wrap32(now)
    {
      lastInputTime := Wrap32(now);
      if hasValue {
        actions := SetValue(code, newValue);
      } else {
        actions := RunCommand(code);
      }
    }

    /** The `hasValue` half of `settings_set`: a letter naming a field stores
        the value clamped into that field's range. */
    method SetValue(code: char, newValue: int) returns (actions: seq<Action>)
      requires Valid() && 0 <= newValue < 0x1_0000
      modifies this
      ensures Valid() && lastInputTime == old(lastInputTime)
      ensures Outcome(Current(), actions) == SetSpec(old(Current()), maxLeds, code, true, newValue)
    {
      ghost var before := Current();
      match code
      case 'C' =>
        ledCount := Constrain(newValue, MinLeds, maxLeds);
        actions := [StoreSettings, Report];
        assert Current() == Put(before, LedCount, ledCount);
      case 'B' =>
        ledBrightness := Constrain(newValue, MinBrightness, MaxBrightness);
        actions := [ApplyBrightness(ledBrightness), StoreSettings, Report];
        assert Current() == Put(before, Brightness, ledBrightness);
        assert actions == [ApplyBrightness(ledBrightness)] + [StoreSettings, Report];
      case 'S' =>
        audioVolume := Constrain(newValue, MinVolume, MaxVolume);
        actions := [StoreSettings, Report];
        assert Current() == Put(before, Volume, audioVolume);
      case 'D' =>
        joystickDeadzone := Constrain(newValue, MinJoystickDeadzone, MaxJoystickDeadzone);
        actions := [StoreSettings, Report];
        assert Current() == Put(before, Deadzone, joystickDeadzone);
      case 'A' =>
        attackThreshold := Constrain(newValue, MinAttackThreshold, MaxAttackThreshold);
        actions := [StoreSettings, Report];
        assert Current() == Put(before, AttackThreshold, attackThreshold);
      case 'L' =>
        livesPerLevel := Constrain(newValue, MinLivesPerLevel, MaxLivesPerLevel);
        actions := [StoreSettings, Report];
        assert Current() == Put(before, Lives, livesPerLevel);
      case _ =>
        actions := [ReportError];
    }

    /** The other half of `settings_set`: the one-letter commands. */
    method RunCommand(code: char) returns (actions: seq<Action>)
      requires Valid()
      modifies this
      ensures Valid() && lastInputTime == old(lastInputTime)
      ensures Outcome(Current(), actions) == SetSpec(old(Current()), maxLeds, code, false, 0)
    {
      match code
      case '?' =>
        actions := [ShowGameStats, ShowSettingsMenu];
      case 'R' =>
        var reset := ResetSettings();
        actions := reset + [StoreSettings, ShowSettingsMenu];
      case 'P' =>
        gamesPlayed := 0;
        totalPoints := 0;
        highScore := 0;
        bossKills := 0;
        actions := [StoreSettings];
      case '!' =>
        actions := [Restart];
      case _ =>
        actions := [ReportError];
    }

    /** `settings_fromString`: validate the line, then dispatch it. */
    method FromString(line: seq<char>, now: int) returns (actions: seq<Action>)
      requires Valid() && IsMillis(now)
      modifies this
      ensures Valid()
      ensures Outcome(Current(), actions) == LineSpec(old(Current()), maxLeds, line)
      ensures lastInputTime == if ParseLine(line).Dispatch? then Wrap32(now) else old(lastInputTime)
    {
      match ParseLine(line)
      case AssertionFailed =>
        actions := [AssertionFailure];
      case Malformed =>
        actions := [ReportError];
      case Dispatch(cmd) =>
        actions := Set(cmd.code, cmd.hasValue, cmd.value, now);
    }

    /** The version check of `settings_eeprom_read`: a stored record of another
        format version is replaced by the defaults. */
    method Load(stored: Config) returns (actions: seq<Action>)
      requires Valid()
      modifies this
      ensures Valid()
      ensures Current() == if stored.version == SettingsVersion then stored else Defaults()
      ensures actions == if stored.version == SettingsVersion then [Report] else [ReportError] + ResetActions()
      ensures lastInputTime == old(lastInputTime)
    {
      if stored.version != SettingsVersion {
        var reset := ResetSettings();
        actions := [ReportError] + reset;
      } else {
        version := stored.version;
        ledCount := stored.ledCount;
        ledBrightness := stored.ledBrightness;
        joystickDeadzone := stored.joystickDeadzone;
        attackThreshold := stored.attackThreshold;
        audioVolume := stored.audioVolume;
        livesPerLevel := stored.livesPerLevel;
        gamesPlayed := stored.gamesPlayed;
        totalPoints := stored.totalPoints;
        highScore := stored.highScore;
        bossKills := stored.bossKills;
        actions := [Report];
      }
    }
  }

  /** The function-static line buffer and cursor of `settings_processSerial`. */
  class SerialReader {
    var readBuffer: array<char>
    var readIndex: int

    ghost predicate Valid()
      reads this
    {
      readBuffer.Length == ReadBufferLen && 0 <= readIndex < ReadBufferLen
    }

    /** The characters buffered since the last line. */
    ghost function Pending(): seq<char>
      reads this, readBuffer
      requires Valid()
    {
      readBuffer[..readIndex]
    }

    constructor ()
      ensures Valid() && fresh(readBuffer) && Pending() == []
    {
      readBuffer := new char[ReadBufferLen](_ => '\0');
      readIndex := 0;
    }

    /** `settings_processSerial(inChar)`. */
    method ProcessSerial(inChar: char, settings: UserSettings, now: int) returns (actions: seq<Action>)
      requires Valid() && settings.Valid() && IsMillis(now)
      modifies this, readBuffer, settings
      ensures Valid() && settings.Valid() && readBuffer == old(readBuffer)
      ensures Pending() == ReadStep(old(Pending()), inChar).pending
      ensures inChar != '\n' ==>
        actions == [] && settings.Current() == old(settings.Current())
        && settings.lastInputTime == old(settings.lastInputTime)
      ensures inChar == '\n' ==>
        Outcome(settings.Current(), actions) == LineSpec(old(settings.Current()), settings.maxLeds, old(Pending()))
      ensures inChar == '\n' ==>
        settings.lastInputTime == if ParseLine(old(Pending())).Dispatch? then Wrap32(now) else old(settings.lastInputTime)
    {
      if inChar == '\r' {
        actions := [];
      } else if inChar == '\n' {
        readBuffer[readIndex] := '\0';
        actions := settings.FromString(readBuffer[..readIndex], now);
        readIndex := 0;
      } else {
        if readIndex == ReadBufferLen - 1 {
          readIndex := 0;
        } else {
          readBuffer[readIndex] := inChar;
          readIndex := readIndex + 1;
        }
        actions := [];
      }
    }
  }
}

/**
 * The line protocol between the on-board computer and the Teensy: how an
 * incoming line is lower-cased, classified by keyword and stripped of its
 * numeral, and the text of the poll replies and command lines the computer
 * sends back.
 */
module Protocol {
  import opened Wrappers
  import opened Numeral

  /** A value held in one of the driver's speed, throttle or steering fields.
      Python keeps whatever it is given: the initial float 0.0, the numeral
      text cut from an MCU line, or the caller's argument. */
  datatype Value = Number(x: real) | Text(s: string)

  /** The three attributes the MCU reports, in the order the driver tests for them. */
  datatype Attribute = Speed | Throttle | Steering

  function Name(a: Attribute): string {
    match a
    case Speed => "speed"
    case Throttle => "throttle"
    case Steering => "steering"
  }

  /** Position in the keyword test: a lower rank is tested first. */
  function Rank(a: Attribute): nat {
    match a
    case Speed => 0
    case Throttle => 1
    case Steering => 2
  }

  /** The attribute whose name is exactly `name`, if any. */
  function AttributeNamed(name: string): (r: Option<Attribute>)
    ensures r.Some? ==> Name(r.value) == name
    ensures forall a :: Name(a) == name ==> r == Some(a)
  {
    if name == "speed" then Some(Speed)
    else if name == "throttle" then Some(Throttle)
    else if name == "steering" then Some(Steering)
    else None
  }

  // ---------------------------------------------------------------- lower case

  predicate IsUpper(c: char) {
    'A' <= c <= 'Z'
  }

  function LowerChar(c: char): char {
    if IsUpper(c) then (c as int + 32) as char else c
  }

  /** `str.lower()` restricted to ASCII letters. */
  function ToLower(s: string): (r: string)
    ensures |r| == |s|
    ensures forall i :: 0 <= i < |s| ==> !IsUpper(r[i])
    ensures forall i :: 0 <= i < |s| && !IsUpper(s[i]) ==> r[i] == s[i]
    ensures forall i :: 0 <= i < |s| && IsUpper(s[i]) ==> r[i] as int == s[i] as int + 32
  {
    seq(|s|, i requires 0 <= i < |s| => LowerChar(s[i]))
  }

  // ------------------------------------------------------------ substring test

  ghost predicate OccursAt(kw: string, s: string, i: int) {
    0 <= i && i + |kw| <= |s| && s[i..i + |kw|] == kw
  }

  /** `kw` is a substring of `s`. */
  ghost predicate Occurs(kw: string, s: string) {
    exists i :: OccursAt(kw, s, i)
  }

  function ContainsFrom(s: string, kw: string, i: nat): (b: bool)
    requires i <= |s|
    ensures b <==> exists j :: i <= j && OccursAt(kw, s, j)
    decreases |s| - i
  {
    if i + |kw| > |s| then false
    else if s[i..i + |kw|] == kw then assert OccursAt(kw, s, i); true
    else ContainsFrom(s, kw, i + 1)
  }

  /** Python's `kw in s` on strings. */
  function Contains(s: string, kw: string): (b: bool)
    ensures b <==> Occurs(kw, s)
  {
    ContainsFrom(s, kw, 0)
  }

  /** A keyword whose last character is a letter cannot reach into a tail that holds no letters. */
  lemma NoOccurrenceInLetterlessTail(kw: string, p: string, tail: string)
    requires |kw| > 0 && 'a' <= kw[|kw| - 1] <= 'z'
    requires forall k :: 0 <= k < |tail| ==> !('a' <= tail[k] <= 'z')
    requires !Occurs(kw, p)
    ensures !Occurs(kw, p + tail)
  {
    var s := p + tail;
    assert forall k :: |p| <= k < |s| ==> s[k] == tail[k - |p|];
    forall i | OccursAt(kw, s, i) ensures OccursAt(kw, p, i) {
      var e := i + |kw|;
      assert s[e - 1] == kw[|kw| - 1];
      assert s[i..e] == p[i..e];
    }
  }

  /** A keyword holding a character that `s` lacks does not occur in `s`. */
  lemma MissingCharBlocksOccurrence(kw: string, s: string, j: nat)
    requires j < |kw| && kw[j] !in s
    ensures !Occurs(kw, s)
  {
    forall i | 0 <= i ensures !OccursAt(kw, s, i) {
      if i + |kw| <= |s| {
        assert s[i..i + |kw|][j] == s[i + j];
      }
    }
  }

  // ------------------------------------------------------------ classification

  /** Which field a lower-cased line updates: the first of speed, throttle,
      steering whose name it contains. */
  function Classify(msg: string): (r: Option<Attribute>)
    ensures r.Some? <==> exists a :: Occurs(Name(a), msg)
    ensures r.Some? ==> Occurs(Name(r.value), msg)
    ensures r.Some? ==> forall b :: Rank(b) < Rank(r.value) ==> !Occurs(Name(b), msg)
  {
    if Contains(msg, "speed") then assert Occurs(Name(Speed), msg); Some(Speed)
    else if Contains(msg, "throttle") then assert Occurs(Name(Throttle), msg); Some(Throttle)
    else if Contains(msg, "steering") then assert Occurs(Name(Steering), msg); Some(Steering)
    else None
  }

  /** What one received line does to the driver. */
  datatype PollStep =
    | Update(attr: Attribute, numeral: string)  // store the numeral text in `attr`
    | NoKeyword                                   // no field named: change nothing
    | MissingNumeral(attr: Attribute)             // a keyword but no digits: indexing [0] raises

  function DecodeLine(line: string): (r: PollStep)
    ensures r.NoKeyword? <==> forall a :: !Occurs(Name(a), ToLower(line))
    ensures !r.NoKeyword? ==> Occurs(Name(r.attr), ToLower(line))
    ensures r.MissingNumeral? ==> forall k :: 0 <= k < |line| ==> !IsDigit(line[k])
    ensures r.Update? ==> IsNumeral(r.numeral)
  {
    var msg := ToLower(line);
    assert forall k :: 0 <= k < |line| && IsDigit(line[k]) ==> IsDigit(msg[k]);
    DecodeMessageMeaning(msg);
    DecodeMessage(msg)
  }

  /** Decoding of the line once it is lower-cased. */
  function DecodeMessage(msg: string): PollStep {
    match Classify(msg)
    case None => NoKeyword
    case Some(a) =>
      match FirstNumeral(msg)
      case None => MissingNumeral(a)
      case Some(n) => Update(a, n)
  }

  /** Decoding names the field of the first keyword in the line, and stores
      the first numeral unless the line holds no digit. */
  lemma DecodeMessageMeaning(msg: string)
    ensures var r := DecodeMessage(msg);
      && (r.NoKeyword? <==> forall a :: !Occurs(Name(a), msg))
      && (!r.NoKeyword? ==> Occurs(Name(r.attr), msg))
      && (!r.NoKeyword? ==> forall b :: Rank(b) < Rank(r.attr) ==> !Occurs(Name(b), msg))
      && (r.MissingNumeral? <==> !r.NoKeyword? && forall k :: 0 <= k < |msg| ==> !IsDigit(msg[k]))
      && (r.Update? ==> FirstNumeral(msg) == Some(r.numeral) && IsNumeral(r.numeral))
  {
  }

  /** Decoding spelled out as the driver performs it: three substring tests in
      order, then the head of the `re.findall` list. */
  lemma DecodeByKeywordTests(msg: string)
    ensures
      var nums := FindAll(msg);
      DecodeMessage(msg) ==
        if Contains(msg, "speed") then
          if |nums| == 0 then MissingNumeral(Speed) else Update(Speed, nums[0])
        else if Contains(msg, "throttle") then
          if |nums| == 0 then MissingNumeral(Throttle) else Update(Throttle, nums[0])
        else if Contains(msg, "steering") then
          if |nums| == 0 then MissingNumeral(Steering) else Update(Steering, nums[0])
        else NoKeyword
  {
    FindAllStartsWithFirstNumeral(msg);
  }

  /** The last-known speed, throttle and steering. */
  datatype Readings = Readings(speed: Value, throttle: Value, steering: Value) {
    function Get(a: Attribute): Value {
      match a
      case Speed => speed
      case Throttle => throttle
      case Steering => steering
    }

    function Set(a: Attribute, v: Value): (r: Readings)
      ensures r.Get(a) == v
      ensures forall b :: b != a ==> r.Get(b) == Get(b)
    {
      match a
      case Speed => this.(speed := v)
      case Throttle => this.(throttle := v)
      case Steering => this.(steering := v)
    }
  }

  function ApplyStep(rd: Readings, step: PollStep): Readings {
    match step
    case Update(a, n) => rd.Set(a, Text(n))
    case _ => rd
  }

  /** The fields after a step: an update stores the numeral text in its field
      alone; the other steps change nothing. */
  lemma ApplyStepMeaning(rd: Readings, step: PollStep)
    ensures step.Update? ==> ApplyStep(rd, step).Get(step.attr) == Text(step.numeral)
    ensures step.Update? ==> forall b :: b != step.attr ==> ApplyStep(rd, step).Get(b) == rd.Get(b)
    ensures !step.Update? ==> ApplyStep(rd, step) == rd
  {
  }

  // ----------------------------------------------------------------- poll reply

  /** `poll` alone asks for everything; `poll <attr>` names the attribute just consumed. */
  function PollReply(attr: Option<Attribute>): string {
    match attr
    case None => "poll\n"
    case Some(a) => "poll " + Name(a) + "\n"
  }

  /** The line written back after a step, if the step gets that far. */
  function ReplyFor(step: PollStep): Option<string> {
    match step
    case Update(a, _) => Some(PollReply(Some(a)))
    case NoKeyword => Some(PollReply(None))
    case MissingNumeral(_) => None
  }

  /** The four lines a poll step can write. */
  lemma PollReplyTexts()
    ensures PollReply(None) == "poll\n"
    ensures PollReply(Some(Speed)) == "poll speed\n"
    ensures PollReply(Some(Throttle)) == "poll throttle\n"
    ensures PollReply(Some(Steering)) == "poll steering\n"
  {
    assert Name(Speed) == "speed";
    assert Name(Throttle) == "throttle";
    assert Name(Steering) == "steering";
  }

  /** The reply as the driver builds it: `"poll"`, then `" " + name` if a field was updated, then the newline. */
  lemma PollReplyAsBuilt()
    ensures ("poll" + " speed") + "\n" == PollReply(Some(Speed))
    ensures ("poll" + " throttle") + "\n" == PollReply(Some(Throttle))
    ensures ("poll" + " steering") + "\n" == PollReply(Some(Steering))
    ensures "poll" + "\n" == PollReply(None)
  {
    PollReplyTexts();
  }

  /** How the MCU reads a poll line. */
  function ParsePollReply(line: string): Option<Option<Attribute>> {
    if |line| < 5 || line[..4] != "poll" || line[|line| - 1] != '\n' then None
    else
      var rest := line[4..|line| - 1];
      if rest == "" then Some(None)
      else if rest[0] != ' ' then None
      else match AttributeNamed(rest[1..])
        case None => None
        case Some(a) => Some(Some(a))
  }

  lemma {:induction false} PollReplyRoundTrip(attr: Option<Attribute>)
    ensures ParsePollReply(PollReply(attr)) == Some(attr)
  {
    var line := PollReply(attr);
    assert line[..4] == "poll";
    match attr
    case None =>
      assert line[4..|line| - 1] == "";
    case Some(a) =>
      assert line[4..|line| - 1] == " " + Name(a);
      assert line[4..|line| - 1][1..] == Name(a);
  }

  // ------------------------------------------------------------------- commands

  /** A command line sent to the MCU in autonomous mode or on shutdown. */
  datatype Command = SetSpeed(speedText: string) | SetSteering(steeringText: string) | Stop

  function EncodeCommand(c: Command): string {
    match c
    case SetSpeed(t) => "command speed " + t + "\n"
    case SetSteering(t) => "command steering " + t + "\n"
    case Stop => "command shutdown\n"
  }

  /** How the MCU reads a command line. */
  function ParseCommand(line: string): Option<Command> {
    if line == "command shutdown\n" then Some(Stop)
    else if |line| >= 15 && line[..14] == "command speed " && line[|line| - 1] == '\n' then
      Some(SetSpeed(line[14..|line| - 1]))
    else if |line| >= 18 && line[..17] == "command steering " && line[|line| - 1] == '\n' then
      Some(SetSteering(line[17..|line| - 1]))
    else None
  }

  lemma {:induction false} CommandRoundTrip(c: Command)
    ensures ParseCommand(EncodeCommand(c)) == Some(c)
  {
    var line := EncodeCommand(c);
    match c
    case Stop =>
    case SetSpeed(t) =>
      assert line[9] == 'p';
      assert line[..14] == "command speed ";
      assert line[14..|line| - 1] == t;
    case SetSteering(t) =>
      assert line[9] == 't';
      assert line[..14] != "command speed ";
      assert line[..17] == "command steering ";
      assert line[17..|line| - 1] == t;
  }

  /** The MCU can never mistake a poll line for a command, in particular not for `command shutdown`. */
  lemma {:induction false} PollReplyIsNotCommand(attr: Option<Attribute>)
    ensures ParseCommand(PollReply(attr)) == None
    ensures PollReply(attr) != EncodeCommand(Stop)
  {
    var line := PollReply(attr);
    assert line[0] == 'p';
  }

  /** No poll step ever answers with the shutdown line. */
  lemma ReplyIsNotShutdown(step: PollStep)
    ensures ReplyFor(step).Some? ==> ReplyFor(step).value != EncodeCommand(Stop)
  {
    match step
    case Update(a, _) => PollReplyIsNotCommand(Some(a));
    case NoKeyword => PollReplyIsNotCommand(None);
    case MissingNumeral(_) =>
  }

  /** Only `Stop` encodes to the shutdown line. */
  lemma ShutdownLineIsUnique(c: Command)
    ensures EncodeCommand(c) == EncodeCommand(Stop) <==> c == Stop
  {
    CommandRoundTrip(c);
    CommandRoundTrip(Stop);
  }

  // -------------------------------------------------------- decoding properties

  /** Classification names the keyword that occurs when none tested before it does. */
  lemma ClassifyPicksFirst(msg: string, a: Attribute)
    requires Occurs(Name(a), msg)
    requires forall b :: Rank(b) < Rank(a) ==> !Occurs(Name(b), msg)
    ensures Classify(msg) == Some(a)
  {
    var r := Classify(msg);
    assert r.Some?;
    var c := r.value;
    assert !(Rank(c) < Rank(a));
    assert !(Rank(a) < Rank(c));
  }

  lemma DecodeKeywordLine(line: string, a: Attribute)
    requires Occurs(Name(a), ToLower(line))
    requires forall b :: Rank(b) < Rank(a) ==> !Occurs(Name(b), ToLower(line))
    ensures FirstNumeral(ToLower(line)).Some? ==> DecodeLine(line) == Update(a, FirstNumeral(ToLower(line)).value)
    ensures FirstNumeral(ToLower(line)).None? ==> DecodeLine(line) == MissingNumeral(a)
  {
    ClassifyPicksFirst(ToLower(line), a);
  }

  /** A line naming `a` (and no keyword tested before it) updates `a` alone
      with its first numeral, and the reply names `a`. */
  lemma KeywordLine(line: string, a: Attribute, n: string, rd: Readings)
    requires Occurs(Name(a), ToLower(line))
    requires forall b :: Rank(b) < Rank(a) ==> !Occurs(Name(b), ToLower(line))
    requires FirstNumeral(ToLower(line)) == Some(n)
    ensures DecodeLine(line) == Update(a, n)
    ensures ApplyStep(rd, DecodeLine(line)).Get(a) == Text(n)
    ensures forall b :: b != a ==> ApplyStep(rd, DecodeLine(line)).Get(b) == rd.Get(b)
    ensures ReplyFor(DecodeLine(line)) == Some("poll " + Name(a) + "\n")
  {
    DecodeKeywordLine(line, a);
  }

  /** A line naming `a` (and no keyword tested before it) but holding no digit
      raises before any field changes or any reply is written. */
  lemma KeywordLineWithoutNumeral(line: string, a: Attribute, rd: Readings)
    requires Occurs(Name(a), ToLower(line))
    requires forall b :: Rank(b) < Rank(a) ==> !Occurs(Name(b), ToLower(line))
    requires forall k :: 0 <= k < |line| ==> !IsDigit(line[k])
    ensures DecodeLine(line) == MissingNumeral(a)
    ensures ApplyStep(rd, DecodeLine(line)) == rd
    ensures ReplyFor(DecodeLine(line)) == None
  {
    ClassifyPicksFirst(ToLower(line), a);
    var msg := ToLower(line);
    assert forall k :: 0 <= k < |msg| ==> !IsDigit(msg[k]);
  }

  /** With two keywords in one line, the one tested first wins: the later one
      is neither updated nor named in the reply. */
  lemma KeywordPriority(line: string, a: Attribute, b: Attribute, rd: Readings)
    requires Occurs(Name(a), ToLower(line)) && Occurs(Name(b), ToLower(line))
    requires Rank(a) < Rank(b)
    ensures DecodeLine(line).Update? || DecodeLine(line).MissingNumeral?
    ensures DecodeLine(line).attr != b
    ensures ApplyStep(rd, DecodeLine(line)).Get(b) == rd.Get(b)
    ensures ReplyFor(DecodeLine(line)) != Some(PollReply(Some(b)))
  {
    var step := DecodeLine(line);
    var r := Classify(ToLower(line));
    assert r.Some?;
    assert Rank(r.value) <= Rank(a) by {
      if Rank(a) < Rank(r.value) {}
    }
    match ReplyFor(step)
    case None =>
    case Some(reply) =>
      PollReplyRoundTrip(Some(step.attr));
      PollReplyRoundTrip(Some(b));
  }

  /** A line with none of the three keywords changes no field and is answered with a bare `poll`. */
  lemma NoKeywordLine(line: string, rd: Readings)
    requires forall a :: !Occurs(Name(a), ToLower(line))
    ensures DecodeLine(line) == NoKeyword
    ensures ApplyStep(rd, DecodeLine(line)) == rd
    ensures ReplyFor(DecodeLine(line)) == Some("poll\n")
  {
    assert PollReply(None) == "poll\n";
  }

  /** A report line as the MCU sends it: attribute name, space, numeral, newline. */
  function Report(a: Attribute, n: string): string {
    Name(a) + " " + n + "\n"
  }

  lemma ReportIsLowerCase(a: Attribute, n: string)
    requires IsNumeral(n)
    ensures ToLower(Report(a, n)) == Report(a, n)
  {
    var line := Report(a, n);
    var p := |Name(a)| + 1;
    NumeralChars(n);
    forall k | 0 <= k < |line| ensures !IsUpper(line[k]) {
      assert k < p - 1 ==> line[k] == Name(a)[k];
      assert p <= k < |line| - 1 ==> line[k] == n[k - p];
    }
  }

  /** No keyword tested before `a` occurs in `a`'s own name followed by a space. */
  lemma EarlierKeywordNotInName(a: Attribute, b: Attribute)
    requires Rank(b) < Rank(a)
    ensures !Occurs(Name(b), Name(a) + " ")
  {
    match a
    case Speed =>
    case Throttle =>
      MissingCharBlocksOccurrence("speed", "throttle ", 1);
    case Steering =>
      if b == Speed {
        MissingCharBlocksOccurrence("speed", "steering ", 1);
      } else {
        MissingCharBlocksOccurrence("throttle", "steering ", 1);
      }
  }

  lemma ReportClassifies(a: Attribute, n: string)
    requires IsNumeral(n)
    ensures Classify(Report(a, n)) == Some(a)
  {
    var line := Report(a, n);
    var tail := n + "\n";
    NumeralChars(n);
    assert line == (Name(a) + " ") + tail;
    assert forall k :: 0 <= k < |tail| ==> !('a' <= tail[k] <= 'z') by {
      assert forall k :: 0 <= k < |n| ==> tail[k] == n[k];
    }
    assert line[0..|Name(a)|] == Name(a);
    assert OccursAt(Name(a), line, 0);
    forall b | Rank(b) < Rank(a) ensures !Occurs(Name(b), line) {
      EarlierKeywordNotInName(a, b);
      NoOccurrenceInLetterlessTail(Name(b), Name(a) + " ", tail);
    }
    ClassifyPicksFirst(line, a);
  }

  lemma ReportNumeral(a: Attribute, n: string)
    requires IsNumeral(n)
    ensures FirstNumeral(Report(a, n)) == Some(n)
  {
    var pre := Name(a) + " ";
    assert Report(a, n) == pre + n + "\n";
    forall k | 0 <= k < |pre| ensures !IsDigit(pre[k]) {
      assert k < |pre| - 1 ==> pre[k] == Name(a)[k];
    }
    NumeralAfterDigitlessPrefix(pre, n);
  }

  /** A numeral between a digitless prefix and the newline is the first match, whole. */
  lemma NumeralAfterDigitlessPrefix(pre: string, n: string)
    requires IsNumeral(n)
    requires forall k :: 0 <= k < |pre| ==> !IsDigit(pre[k])
    ensures FirstNumeral(pre + n + "\n") == Some(n)
  {
    var line := pre + n + "\n";
    var p := |pre|;
    assert line[p..p + |n|] == n;
    assert forall k :: 0 <= k < p ==> line[k] == pre[k];
    NoMatchWithoutDigit(line, 0, p);
    FindNumeralIsLeftmostLongest(line, 0);
    var m := FindNumeralFrom(line, 0).value;
    assert m.start == p;
    assert m.end >= p + |n|;
    NumeralChars(line[p..m.end]);
    assert line[p..m.end][m.end - 1 - p] == line[m.end - 1];
    assert m.end == p + |n|;
  }

  /** A report `<attr> <num>` as the MCU sends it decodes to that attribute and
      that numeral, and is acknowledged with `poll <attr>`. */
  lemma ReportIsAcknowledged(a: Attribute, n: string)
    requires IsNumeral(n)
    ensures DecodeLine(Report(a, n)) == Update(a, n)
    ensures ReplyFor(DecodeLine(Report(a, n))) == Some("poll " + Name(a) + "\n")
  {
    ReportIsLowerCase(a, n);
    ReportClassifies(a, n);
    ReportNumeral(a, n);
  }

  /** Lower-casing twice is lower-casing once. */
  lemma ToLowerIdempotent(s: string)
    ensures ToLower(ToLower(s)) == ToLower(s)
  {
  }

  /** Decoding sees only the lower-cased line, so keywords match in any case. */
  lemma DecodeIgnoresCase(line: string)
    ensures DecodeLine(ToLower(line)) == DecodeLine(line)
  {
    ToLowerIdempotent(line);
  }

  /** A report whose letters are in any case decodes as the lower-case report does. */
  lemma ReportInAnyCase(line: string, a: Attribute, n: string)
    requires IsNumeral(n)
    requires ToLower(line) == Report(a, n)
    ensures DecodeLine(line) == Update(a, n)
    ensures ReplyFor(DecodeLine(line)) == Some("poll " + Name(a) + "\n")
  {
    DecodeIgnoresCase(line);
    ReportIsAcknowledged(a, n);
  }

  // ------------------------------------------------------------------ examples

  lemma LowerOfMixedCaseReport()
    ensures ToLower("Speed 12.50\n") == Report(Speed, "12.50")
  {
  }

  lemma NumeralOfMixedCaseReport()
    ensures IsNumeral("12.50")
  {
    assert Shaped("12.50", 2, 3);
  }

  lemma LowerOfNegativeSteering()
    ensures ToLower("steering -0.45\n") == "steering -0.45\n"
  {
  }

  lemma NumeralOfNegativeSteering()
    ensures FirstNumeral("steering -0.45\n") == Some("0.45")
  {
    assert Shaped("0.45", 1, 2);
    assert "steering -0.45\n" == "steering -" + "0.45" + "\n";
    NumeralAfterDigitlessPrefix("steering -", "0.45");
  }

  lemma KeywordsOfNegativeSteering()
    ensures !Occurs("speed", "steering -0.45\n")
    ensures !Occurs("throttle", "steering -0.45\n")
    ensures Occurs("steering", "steering -0.45\n")
  {
    var line := "steering -0.45\n";
    MissingCharBlocksOccurrence("speed", line, 1);
    MissingCharBlocksOccurrence("throttle", line, 1);
    assert OccursAt("steering", line, 0);
  }

  /** Upper-case letters in a report make no difference. */
  lemma ExampleMixedCaseReport()
    ensures DecodeLine("Speed 12.50\n") == Update(Speed, "12.50")
  {
    NumeralOfMixedCaseReport();
    LowerOfMixedCaseReport();
    ReportInAnyCase("Speed 12.50\n", Speed, "12.50");
  }

  /** ... and is acknowledged with `poll speed`. */
  lemma ExampleMixedCaseReply()
    ensures ReplyFor(DecodeLine("Speed 12.50\n")) == Some(PollReply(Some(Speed)))
  {
    ExampleMixedCaseReport();
  }

  /** A lower-case line that names steering and no earlier keyword decodes to its first numeral. */
  lemma SteeringOnlyLine(line: string, n: string)
    requires ToLower(line) == line
    requires !Occurs("speed", line) && !Occurs("throttle", line) && Occurs("steering", line)
    requires FirstNumeral(line) == Some(n)
    ensures DecodeLine(line) == Update(Steering, n)
  {
    ClassifyPicksFirst(line, Steering);
  }

  /** The pattern has no sign: a negative steering report is stored without its minus. */
  lemma ExampleNegativeSteering()
    ensures DecodeLine("steering -0.45\n") == Update(Steering, "0.45")
  {
    LowerOfNegativeSteering();
    NumeralOfNegativeSteering();
    KeywordsOfNegativeSteering();
    SteeringOnlyLine("steering -0.45\n", "0.45");
  }

  /** A line with no keyword is answered with a bare poll. */
  lemma ExampleGarbage(rd: Readings)
    ensures DecodeLine("garbage\n") == NoKeyword
    ensures ApplyStep(rd, DecodeLine("garbage\n")) == rd
    ensures ReplyFor(DecodeLine("garbage\n")) == Some("poll\n")
  {
    var line := "garbage\n";
    assert ToLower(line) == line;
    MissingCharBlocksOccurrence("speed", line, 0);
    MissingCharBlocksOccurrence("throttle", line, 0);
    MissingCharBlocksOccurrence("steering", line, 0);
    NoKeywordLine(line, rd);
  }
}

/** Target IDs: parsing and printing them, and which code objects a device can run. */
module TargetIds {
  import opened Arithmetic
  import opened Dags

  const TRIPLE := "amdgcn-amd-amdhsa-"
  const PREFIX := TRIPLE + "-"
  const SRAMECC := ":sramecc"
  const XNACK := ":xnack"

  // ---- The parser ----

  /** What is left of `input` after `prefix`, if it starts with it. */
  function Consume(input: string, prefix: string): (rest: Option<string>)
    ensures rest.Some? <==> prefix <= input
    ensures rest.Some? ==> input == prefix + rest.value
  {
    if |prefix| <= |input| && input[..|prefix|] == prefix then Some(input[|prefix|..]) else None
  }

  /** The position of the first c in s, or |s|. */
  function Find(s: string, c: char): (r: nat)
    ensures r <= |s| && c !in s[..r] && (r < |s| ==> s[r] == c)
  {
    if s == "" || s[0] == c then 0
    else
      var r := 1 + Find(s[1..], c);
      assert s[..r] == [s[0]] + s[1..][..r - 1];
      r
  }

  /** The part of `input` before the first `trim`, and the rest. */
  function TrimName(input: string, trim: char): (r: (string, string))
    ensures r.0 + r.1 == input && trim !in r.0 && (r.1 != "" ==> r.1[0] == trim)
  {
    var pos := Find(input, trim);
    (input[..pos], input[pos..])
  }

  /** A feature character and the remaining input; reading past the end throws. */
  datatype Feature = Value(c: char, rest: string) | Throws

  function GetFeatureValue(input: string, feature: string): Feature {
    match Consume(input, feature)
    case None => Value(' ', input)
    case Some(rest) => if rest == "" then Throws else Value(rest[0], rest[1..])
  }

  datatype TargetId = TargetId(processor: string, sramecc: char, xnack: char)

  datatype Parse = Parsed(id: TargetId, rest: string) | Rejected | Thrown

  predicate Setting(c: char) {
    c == ' ' || c == '+' || c == '-'
  }

  function GetTargetIdValue(input: string): Parse {
    var (processor, features) := TrimName(input, ':');
    match GetFeatureValue(features, SRAMECC)
    case Throws => Thrown
    case Value(sramecc, afterSramecc) =>
      if !Setting(sramecc) then Rejected
      else match GetFeatureValue(afterSramecc, XNACK)
      case Throws => Thrown
      case Value(xnack, rest) => if !Setting(xnack) then Rejected else Parsed(TargetId(processor, sramecc, xnack), rest)
  }

  /** A whole triple target ID; trailing text is rejected. */
  function ParseTriple(s: string): Parse {
    match Consume(s, PREFIX)
    case None => Rejected
    case Some(input) =>
      match GetTargetIdValue(input)
      case Parsed(id, rest) => if rest == "" then Parsed(id, rest) else Rejected
      case other => other
  }

  predicate Accepted(s: string) {
    ParseTriple(s).Parsed?
  }

  // ---- Printing, and what the parser accepts ----

  function Suffix(feature: string, c: char): string {
    if c == ' ' then "" else feature + [c]
  }

  function Print(id: TargetId): string {
    PREFIX + id.processor + Suffix(SRAMECC, id.sramecc) + Suffix(XNACK, id.xnack)
  }

  predicate Printable(id: TargetId) {
    ':' !in id.processor && Setting(id.sramecc) && Setting(id.xnack)
  }

  lemma {:induction false} FindAt(s: string, t: string, c: char)
    requires c !in s && (t == "" || t[0] == c)
    ensures Find(s + t, c) == |s|
  {
    if s == "" {
      assert s + t == t;
    } else {
      FindAt(s[1..], t, c);
      assert (s + t)[1..] == s[1..] + t;
    }
  }

  lemma TrimAt(s: string, t: string, c: char)
    requires c !in s && (t == "" || t[0] == c)
    ensures TrimName(s + t, c) == (s, t)
  {
    FindAt(s, t, c);
  }

  lemma FeatureRead(feature: string, c: char, rest: string)
    requires feature != "" && (c == ' ' ==> !(feature <= rest))
    ensures GetFeatureValue(Suffix(feature, c) + rest, feature) == Value(c, rest)
  {
    if c == ' ' {
      assert Suffix(feature, c) + rest == rest;
    } else {
      var input := Suffix(feature, c) + rest;
      assert input[..|feature|] == feature;
      assert input[|feature|..] == [c] + rest;
    }
  }

  /** The text of a feature as the parser accepts it: absent, or with its character. */
  predicate Spelled(feature: string, c: char, text: string) {
    text == feature + [c] || (c == ' ' && text == "")
  }

  lemma FeatureSpelled(input: string, feature: string) returns (text: string)
    requires GetFeatureValue(input, feature).Value?
    ensures var v := GetFeatureValue(input, feature); input == text + v.rest && Spelled(feature, v.c, text)
  {
    var v := GetFeatureValue(input, feature);
    match Consume(input, feature) {
      case None => text := "";
      case Some(rest) =>
        text := feature + [v.c];
        assert rest == [v.c] + v.rest;
    }
  }

  /** Printing then parsing gives back processor and features. */
  lemma PrintParses(id: TargetId)
    requires Printable(id)
    ensures ParseTriple(Print(id)) == Parsed(id, "")
  {
    var xnack := Suffix(XNACK, id.xnack);
    var features := Suffix(SRAMECC, id.sramecc) + xnack;
    var input := id.processor + features;
    assert Print(id) == PREFIX + input;
    ConsumePrefix(PREFIX, input);
    TrimAt(id.processor, features, ':');
    assert !(SRAMECC <= xnack) by {
      assert XNACK[1] == 'x' && SRAMECC[1] == 's';
    }
    FeatureRead(SRAMECC, id.sramecc, xnack);
    assert xnack + "" == xnack;
    FeatureRead(XNACK, id.xnack, "");
  }

  lemma ConsumePrefix(prefix: string, rest: string)
    ensures Consume(prefix + rest, prefix) == Some(rest)
  {
    assert (prefix + rest)[..|prefix|] == prefix;
    assert (prefix + rest)[|prefix|..] == rest;
  }

  /** The features of a triple target ID: everything from the first colon on. */
  function Features(s: string): string {
    match Consume(s, PREFIX)
    case None => ""
    case Some(input) => TrimName(input, ':').1
  }

  /** An accepted string is its processor followed by two spelled features. */
  lemma AcceptedShape(s: string) returns (sramecc: string, xnack: string)
    requires Accepted(s)
    ensures ParseTriple(s).Parsed?
    ensures var id := ParseTriple(s).id;
            && Printable(id) && s == PREFIX + id.processor + sramecc + xnack && Features(s) == sramecc + xnack
            && Spelled(SRAMECC, id.sramecc, sramecc) && Spelled(XNACK, id.xnack, xnack)
  {
    hide *;
    var features, after := AcceptedParts(s);
    sramecc := FeatureSpelled(features, SRAMECC);
    xnack := FeatureSpelled(after, XNACK);
    assert xnack + "" == xnack;
    var head := PREFIX + ParseTriple(s).id.processor;
    assert head + (sramecc + xnack) == head + sramecc + xnack;
  }

  lemma AcceptedParts(s: string) returns (features: string, after: string)
    requires Accepted(s)
    ensures ParseTriple(s).Parsed?
    ensures var id := ParseTriple(s).id;
            && Printable(id) && s == PREFIX + id.processor + features && Features(s) == features
            && GetFeatureValue(features, SRAMECC) == Value(id.sramecc, after)
            && GetFeatureValue(after, XNACK) == Value(id.xnack, "")
  {
    hide Find, GetFeatureValue;
    var input := Consume(s, PREFIX).value;
    features := TrimName(input, ':').1;
    after := GetFeatureValue(features, SRAMECC).rest;
    var processor := TrimName(input, ':').0;
    assert PREFIX + (processor + features) == PREFIX + processor + features;
  }

  lemma FeatureWritten(feature: string, c: char, rest: string)
    ensures GetFeatureValue(feature + [c] + rest, feature) == Value(c, rest)
  {
    var input := feature + [c] + rest;
    assert input[..|feature|] == feature;
    assert input[|feature|..] == [c] + rest;
  }

  lemma SpelledRead(feature: string, c: char, text: string, rest: string)
    requires feature != "" && Spelled(feature, c, text) && !(feature <= rest)
    ensures GetFeatureValue(text + rest, feature) == Value(c, rest)
  {
    if text == "" {
      assert text + rest == rest;
    } else {
      FeatureWritten(feature, c, rest);
    }
  }

  lemma OtherFeatures()
    ensures !(SRAMECC <= "") && !(XNACK <= "") && SRAMECC[0] == XNACK[0] == ':'
    ensures forall rest :: !(SRAMECC <= XNACK + rest)
  {
    assert SRAMECC[1] == 's';
    forall rest ensures !(SRAMECC <= XNACK + rest) {
      assert (XNACK + rest)[1] == 'x';
    }
  }

  /** Every string of that shape is accepted. */
  lemma ShapeAccepted(id: TargetId, sramecc: string, xnack: string)
    requires Printable(id) && Spelled(SRAMECC, id.sramecc, sramecc) && Spelled(XNACK, id.xnack, xnack)
    ensures ParseTriple(PREFIX + id.processor + sramecc + xnack) == Parsed(id, "")
  {
    hide Find, GetFeatureValue, Consume;
    OtherFeatures();
    var features := sramecc + xnack;
    assert xnack == "" || xnack == XNACK + [id.xnack];
    assert PREFIX + id.processor + sramecc + xnack == PREFIX + (id.processor + features);
    ConsumePrefix(PREFIX, id.processor + features);
    TrimAt(id.processor, features, ':');
    SpelledRead(SRAMECC, id.sramecc, sramecc, xnack);
    assert xnack + "" == xnack;
    SpelledRead(XNACK, id.xnack, xnack, "");
  }

  /** The parser reads past the end of a string that stops right after the name of a
      feature. */
  ghost predicate CutOff(s: string, processor: string, c: char, sramecc: string) {
    && ':' !in processor
    && (s == PREFIX + processor + SRAMECC
        || (Setting(c) && Spelled(SRAMECC, c, sramecc) && s == PREFIX + processor + sramecc + XNACK))
  }

  lemma ThrowsCutOff(s: string, processor: string, c: char, sramecc: string)
    requires CutOff(s, processor, c, sramecc)
    ensures ParseTriple(s) == Thrown
  {
    hide Find, Consume;
    OtherFeatures();
    var features := if s == PREFIX + processor + SRAMECC then SRAMECC else sramecc + XNACK;
    assert s == PREFIX + (processor + features);
    ConsumePrefix(PREFIX, processor + features);
    TrimAt(processor, features, ':');
    assert SRAMECC + "" == SRAMECC && XNACK + "" == XNACK;
    ConsumePrefix(SRAMECC, "");
    ConsumePrefix(XNACK, "");
    if s != PREFIX + processor + SRAMECC {
      assert XNACK + "" == XNACK;
      SpelledRead(SRAMECC, c, sramecc, XNACK);
    }
  }

  lemma CutFeature(input: string, feature: string)
    requires GetFeatureValue(input, feature) == Throws
    ensures input == feature
  {
    assert feature + "" == feature;
  }

  /** It throws on such strings only. */
  lemma ThrownIsCutOff(s: string) returns (processor: string, c: char, sramecc: string)
    requires ParseTriple(s) == Thrown
    ensures CutOff(s, processor, c, sramecc)
  {
    hide Find, GetFeatureValue, Consume;
    var input := Consume(s, PREFIX).value;
    var features := TrimName(input, ':').1;
    processor, c, sramecc := TrimName(input, ':').0, ' ', "";
    assert s == PREFIX + processor + features;
    var first := GetFeatureValue(features, SRAMECC);
    if first.Throws? {
      CutFeature(features, SRAMECC);
    } else {
      c := first.c;
      sramecc := FeatureSpelled(features, SRAMECC);
      CutFeature(first.rest, XNACK);
      assert s == PREFIX + processor + sramecc + XNACK;
    }
  }

  /** The parser also accepts a space as a feature character. Exactly the accepted strings
      without one are determined by their parse. */
  lemma DeterminedExactly(s: string)
    requires Accepted(s)
    ensures s == Print(ParseTriple(s).id) <==> ' ' !in Features(s)
  {
    hide *;
    var sramecc, xnack := AcceptedShape(s);
    var id := ParseTriple(s).id;
    PlainFeatures();
    SpelledPlain(SRAMECC, id.sramecc, sramecc);
    SpelledPlain(XNACK, id.xnack, xnack);
    PrintIs(id);
    SameTail(PREFIX + id.processor, sramecc, xnack, Suffix(SRAMECC, id.sramecc), Suffix(XNACK, id.xnack));
  }

  lemma PlainFeatures()
    ensures ' ' !in SRAMECC && ' ' !in XNACK
  {
  }

  lemma PrintIs(id: TargetId)
    ensures Print(id) == PREFIX + id.processor + Suffix(SRAMECC, id.sramecc) + Suffix(XNACK, id.xnack)
  {
  }

  lemma SameTail(head: string, a: string, b: string, c: string, d: string)
    requires |a| >= |c| && |b| >= |d|
    ensures head + a + b == head + c + d <==> a == c && b == d
  {
    if head + a + b == head + c + d {
      assert (head + a + b)[|head|..] == a + b;
      assert (head + c + d)[|head|..] == c + d;
      assert |a| == |c| && |b| == |d|;
      assert (a + b)[..|a|] == a && (c + d)[..|c|] == c;
      assert (a + b)[|a|..] == b && (c + d)[|c|..] == d;
    }
  }

  lemma SpelledPlain(feature: string, c: char, text: string)
    requires Spelled(feature, c, text) && ' ' !in feature
    ensures text == Suffix(feature, c) <==> ' ' !in text
    ensures |text| >= |Suffix(feature, c)|
  {
    if text != Suffix(feature, c) {
      assert text[|feature|] == ' ';
    }
  }

  // ---- Compatibility ----

  const GENERIC_VERSION_MIN: nat := 1

  /** The generic target that covers a processor. */
  function GenericOf(processor: string): Option<string> {
    if processor in ["gfx900", "gfx902", "gfx904", "gfx906", "gfx909", "gfx90c"] then Some("gfx9-generic")
    else if processor in ["gfx1010", "gfx1011", "gfx1012", "gfx1013"] then Some("gfx10-1-generic")
    else if processor in ["gfx1030", "gfx1031", "gfx1032", "gfx1033", "gfx1034", "gfx1035", "gfx1036"]
      then Some("gfx10-3-generic")
    else if processor in ["gfx1100", "gfx1101", "gfx1102", "gfx1103", "gfx1150", "gfx1151"] then Some("gfx11-generic")
    else if processor in ["gfx1200", "gfx1201", "gfx1210"] then Some("gfx12-generic")
    else None
  }

  datatype Verdict = Yes | No | Raised

  /** Whether code built for `co` runs on a device `agent`. */
  function Compatible(co: string, agent: string, genericVersion: nat): Verdict {
    if co == agent then Yes
    else match ParseTriple(co)
      case Thrown => Raised
      case Rejected => No
      case Parsed(c, _) =>
        match ParseTriple(agent)
        case Thrown => Raised
        case Rejected => No
        case Parsed(a, _) =>
          if genericVersion >= GENERIC_VERSION_MIN && GenericOf(a.processor) != Some(c.processor) then No
          else if genericVersion < GENERIC_VERSION_MIN && a.processor != c.processor then No
          else if c.sramecc != ' ' && c.sramecc != a.sramecc then No
          else if c.xnack != ' ' && c.xnack != a.xnack then No
          else Yes
  }

  /** Plain code, not for a generic target, built for `co` runs on `agent`. */
  predicate Runs(co: string, agent: string) {
    Compatible(co, agent, 0) == Yes
  }

  /** Two strings run on each other exactly when they are equal or parse alike. */
  lemma MutualExactly(a: string, b: string)
    ensures Runs(a, b) && Runs(b, a)
            <==> a == b || (Accepted(a) && Accepted(b) && ParseTriple(a).id == ParseTriple(b).id)
  {
    hide ParseTriple;
  }

  /** What a code object asks of a device: each feature it sets must be set alike there. A
      feature it leaves open, and one only the device sets, ask nothing. */
  predicate Asks(c: TargetId, a: TargetId) {
    (c.sramecc == ' ' || c.sramecc == a.sramecc) && (c.xnack == ' ' || c.xnack == a.xnack)
  }

  lemma PrintedVerdict(c: TargetId, a: TargetId, version: nat)
    requires Printable(c) && Printable(a) && Print(c) != Print(a)
    ensures Compatible(Print(c), Print(a), version) ==
            if Asks(c, a) && (if version >= GENERIC_VERSION_MIN then GenericOf(a.processor) == Some(c.processor)
                              else a.processor == c.processor)
            then Yes else No
  {
    hide ParseTriple, Print, GenericOf;
    PrintParses(c);
    PrintParses(a);
  }

  /** Plain code runs on a device of its own processor that meets what it asks, and on no
      other. */
  lemma RunsExactly(c: TargetId, a: TargetId)
    requires Printable(c) && Printable(a)
    ensures Runs(Print(c), Print(a)) <==> c.processor == a.processor && Asks(c, a)
  {
    hide ParseTriple, Print, GenericOf;
    if Print(c) == Print(a) {
      PrintParses(c);
      PrintParses(a);
    } else {
      PrintedVerdict(c, a, 0);
    }
  }

  /** Generic code runs on the processors its target covers, if they meet what it asks, and
      otherwise only where the two IDs are the same text. */
  lemma GenericRunsExactly(c: TargetId, a: TargetId, version: nat)
    requires Printable(c) && Printable(a) && version >= GENERIC_VERSION_MIN
    ensures Compatible(Print(c), Print(a), version) == Yes
            <==> c == a || (a.processor in Covered(c.processor) && Asks(c, a))
  {
    hide ParseTriple, Print, GenericOf, Covered;
    PrintParses(c);
    PrintParses(a);
    CoveredExactly(a.processor, c.processor);
    if Print(c) != Print(a) {
      PrintedVerdict(c, a, version);
    }
  }

  /** The processors that a generic target covers. */
  function Covered(target: string): set<string> {
    match target
    case "gfx9-generic" => {"gfx900", "gfx902", "gfx904", "gfx906", "gfx909", "gfx90c"}
    case "gfx10-1-generic" => {"gfx1010", "gfx1011", "gfx1012", "gfx1013"}
    case "gfx10-3-generic" => {"gfx1030", "gfx1031", "gfx1032", "gfx1033", "gfx1034", "gfx1035", "gfx1036"}
    case "gfx11-generic" => {"gfx1100", "gfx1101", "gfx1102", "gfx1103", "gfx1150", "gfx1151"}
    case "gfx12-generic" => {"gfx1200", "gfx1201", "gfx1210"}
    case _ => {}
  }

  lemma CoveredExactly(processor: string, target: string)
    ensures processor in Covered(target) <==> GenericOf(processor) == Some(target)
  {
  }

  /** Compatibility is a preorder on all strings, well-formed or not, and a partial order on
      those without a space for a feature character. */
  lemma RunsPartialOrder(a: string, b: string, c: string)
    ensures Runs(a, a)
    ensures Runs(a, b) && Runs(b, c) ==> Runs(a, c)
    ensures Runs(a, b) && Runs(b, a) && ' ' !in Features(a) && ' ' !in Features(b) ==> a == b
  {
    hide ParseTriple, Features, Print;
    MutualExactly(a, b);
    if Runs(a, b) && Runs(b, a) && ' ' !in Features(a) && ' ' !in Features(b) && a != b {
      DeterminedExactly(a);
      DeterminedExactly(b);
    }
  }

  /** Every feature written out, with a space where it is not set. */
  function Blanked(id: TargetId): string {
    PREFIX + id.processor + SRAMECC + [id.sramecc] + XNACK + [id.xnack]
  }

  lemma BlankedParses(id: TargetId)
    requires Printable(id)
    ensures ParseTriple(Blanked(id)) == Parsed(id, "")
  {
    hide Find;
    var xnack := XNACK + [id.xnack];
    var features := SRAMECC + [id.sramecc] + xnack;
    assert Blanked(id) == PREFIX + (id.processor + features);
    ConsumePrefix(PREFIX, id.processor + features);
    TrimAt(id.processor, features, ':');
    FeatureWritten(SRAMECC, id.sramecc, xnack);
    assert xnack == XNACK + [id.xnack] + "";
    FeatureWritten(XNACK, id.xnack, "");
  }

  /** An accepted string is the only one of its kind exactly when it sets both features:
      otherwise another string, different from it, runs wherever it runs and back. */
  lemma AloneExactly(a: string)
    requires Accepted(a)
    ensures var id := ParseTriple(a).id;
            (forall b :: Runs(a, b) && Runs(b, a) ==> a == b) <==> id.sramecc != ' ' && id.xnack != ' '
  {
    hide *;
    var id := ParsedId(a);
    if id.sramecc != ' ' && id.xnack != ' ' {
      forall b | Runs(a, b) && Runs(b, a) ensures a == b {
        SetIsAlone(a, b);
      }
    } else {
      PrintParses(id);
      BlankedParses(id);
      PrintedIsNotBlanked(id);
      TwinRuns(a, Print(id));
      TwinRuns(a, Blanked(id));
    }
  }

  lemma ParsedId(a: string) returns (id: TargetId)
    requires Accepted(a)
    ensures ParseTriple(a).Parsed? && id == ParseTriple(a).id && Printable(id) && ParseTriple(a).rest == ""
  {
    var _, _ := AcceptedParts(a);
    id := ParseTriple(a).id;
  }

  lemma TwinRuns(a: string, b: string)
    requires ParseTriple(a).Parsed? && ParseTriple(b) == Parsed(ParseTriple(a).id, "")
    ensures Runs(a, b) && Runs(b, a)
  {
    hide ParseTriple;
    MutualExactly(a, b);
  }

  lemma PrintedIsNotBlanked(id: TargetId)
    requires Printable(id) && (id.sramecc == ' ' || id.xnack == ' ')
    ensures Print(id) != Blanked(id)
  {
    assert |Print(id)| < |Blanked(id)|;
  }

  lemma SetIsAlone(a: string, b: string)
    requires Accepted(a) && Runs(a, b) && Runs(b, a)
    requires ParseTriple(a).id.sramecc != ' ' && ParseTriple(a).id.xnack != ' '
    ensures a == b
  {
    hide ParseTriple, Features, Print;
    MutualExactly(a, b);
    if a != b {
      NoSpaces(a);
      NoSpaces(b);
      DeterminedExactly(a);
      DeterminedExactly(b);
    }
  }

  lemma NoSpaces(a: string)
    requires Accepted(a) && ParseTriple(a).id.sramecc != ' ' && ParseTriple(a).id.xnack != ' '
    ensures ' ' !in Features(a)
  {
    hide ParseTriple, Features;
    var sramecc, xnack := AcceptedShape(a);
    PlainFeatures();
  }

  /** Generic targets do not chain: what is generic code to one target is no device for
      other generic code. */
  lemma GenericNeverChains(a: string, b: string, c: string, version: nat)
    requires version >= GENERIC_VERSION_MIN && Compatible(a, b, version) == Yes && Compatible(b, c, version) == Yes
    ensures a == b || b == c
  {
    hide ParseTriple;
    if a != b && b != c {
      GenericIsNoDevice(ParseTriple(c).id.processor);
    }
  }

  lemma GenericIsNoDevice(processor: string)
    requires GenericOf(processor).Some?
    ensures GenericOf(GenericOf(processor).value) == None
  {
  }

  /** The same pair of different strings is never compatible both as plain and as generic code. */
  lemma GenericIsNotPlain(a: string, b: string, version: nat)
    requires version >= GENERIC_VERSION_MIN && a != b
    ensures !(Compatible(a, b, version) == Yes && Runs(a, b))
  {
    hide ParseTriple;
    if Compatible(a, b, version) == Yes {
      GenericIsNoDevice(ParseTriple(b).id.processor);
    }
  }

  // ---- Describing a code object ----

  datatype Abi = V2 | V3 | V4 | V5 | V6 | OtherAbi

  datatype Support = Unsupported | Any | Off | On

  /** The header of a code object: whether it is AMD GPU code, what its machine code says
      of processor and features, the ABI version and the flag word. */
  datatype Header = Header(amdgpu: bool, processor: Option<string>, sramEccSupported: bool, xnackSupported: bool,
    abi: Abi, flags: nat)

  const SRAMECC_V3: nat := 0x200
  const XNACK_V3: nat := 0x100
  const SRAMECC_V4: nat := 0x400 // the lower of the two bits
  const XNACK_V4: nat := 0x100
  const GENERIC_VERSION: nat := 0x100_0000

  predicate FlagSet(flags: nat, bit: nat)
    requires bit > 0
  {
    (flags / bit) % 2 == 1
  }

  function SupportIn(flags: nat, bit: nat): Support
    requires bit > 0
  {
    var field := (flags / bit) % 4;
    if field == 0 then Unsupported else if field == 1 then Any else if field == 2 then Off else On
  }

  function GetGenericVersion(h: Header): nat {
    if h.amdgpu && h.abi == V6 then (h.flags / GENERIC_VERSION) % 0x100 else 0
  }

  function Sign(on: bool): string {
    if on then "+" else "-"
  }

  function SuffixV4(feature: string, support: Support): string {
    match support
    case Off => feature + "-"
    case On => feature + "+"
    case _ => ""
  }

  function GetTripleTargetIdFromCodeObject(h: Header): Option<string> {
    if !h.amdgpu || h.processor.None? then None
    else
      var targetId := PREFIX + h.processor.value;
      match h.abi
      case V2 => None
      case V3 =>
        var withSramEcc := if h.sramEccSupported then targetId + SRAMECC + Sign(FlagSet(h.flags, SRAMECC_V3))
          else targetId;
        Some(if h.xnackSupported then withSramEcc + XNACK + Sign(FlagSet(h.flags, XNACK_V3)) else withSramEcc)
      case OtherAbi => None
      case _ => Some(targetId + SuffixV4(SRAMECC, SupportIn(h.flags, SRAMECC_V4))
        + SuffixV4(XNACK, SupportIn(h.flags, XNACK_V4)))
  }

  /** The setting a header describes: ' ' where the feature is not decided. */
  function SettingOf(abi: Abi, supported: bool, v3: bool, v4: Support): char {
    if abi == V3 then (if !supported then ' ' else if v3 then '+' else '-')
    else match v4
      case Off => '-'
      case On => '+'
      case _ => ' '
  }

  function Described(h: Header): TargetId
    requires h.processor.Some?
  {
    TargetId(h.processor.value,
             SettingOf(h.abi, h.sramEccSupported, FlagSet(h.flags, SRAMECC_V3), SupportIn(h.flags, SRAMECC_V4)),
             SettingOf(h.abi, h.xnackSupported, FlagSet(h.flags, XNACK_V3), SupportIn(h.flags, XNACK_V4)))
  }

  /** Two-bit fields of the flag word: 0 unsupported, 1 undecided, 2 off, 3 on. */
  function FieldOf(support: Support): nat {
    match support
    case Unsupported => 0
    case Any => 1
    case Off => 2
    case On => 3
  }

  /** The flag word of ABI version 4 and later: machine code, xnack, sramecc, bits that are
      not looked at, and the generic version in the top byte. */
  function FlagsV4(machine: nat, xnack: Support, sramecc: Support, other: nat, version: nat): nat {
    machine + 0x100 * FieldOf(xnack) + 0x400 * FieldOf(sramecc) + 0x1000 * other + 0x100_0000 * version
  }

  /** The flag word of ABI version 3: machine code, one bit per feature, other bits. */
  function FlagsV3(machine: nat, xnack: bool, sramecc: bool, other: nat): nat {
    machine + (if xnack then 0x100 else 0) + (if sramecc then 0x200 else 0) + 0x400 * other
  }

  lemma FieldsRead(machine: nat, xnack: Support, sramecc: Support, other: nat, version: nat)
    requires machine < 0x100 && other < 0x1000 && version < 0x100
    ensures var flags := FlagsV4(machine, xnack, sramecc, other, version);
            && SupportIn(flags, XNACK_V4) == xnack && SupportIn(flags, SRAMECC_V4) == sramecc
            && (flags / GENERIC_VERSION) % 0x100 == version
  {
    var flags, x, y := FlagsV4(machine, xnack, sramecc, other, version), FieldOf(xnack), FieldOf(sramecc);
    DivisionIs(flags, x + 4 * (y + 4 * (other + 0x1000 * version)), machine, 0x100);
    DivisionIs(flags, y + 4 * (other + 0x1000 * version), machine + 0x100 * x, 0x400);
    DivisionIs(flags, version, machine + 0x100 * x + 0x400 * y + 0x1000 * other, 0x100_0000);
    DivisionIs(x + 4 * (y + 4 * (other + 0x1000 * version)), y + 4 * (other + 0x1000 * version), x, 4);
    DivisionIs(y + 4 * (other + 0x1000 * version), other + 0x1000 * version, y, 4);
    DivisionIs(version, 0, version, 0x100);
  }

  lemma BitsRead(machine: nat, xnack: bool, sramecc: bool, other: nat)
    requires machine < 0x100
    ensures var flags := FlagsV3(machine, xnack, sramecc, other);
            (FlagSet(flags, XNACK_V3) <==> xnack) && (FlagSet(flags, SRAMECC_V3) <==> sramecc)
  {
    var flags, x, y := FlagsV3(machine, xnack, sramecc, other), if xnack then 1 else 0, if sramecc then 1 else 0;
    DivisionIs(flags, x + 2 * (y + 2 * other), machine, 0x100);
    DivisionIs(flags, y + 2 * other, machine + 0x100 * x, 0x200);
    DivisionIs(x + 2 * (y + 2 * other), y + 2 * other, x, 2);
    DivisionIs(y + 2 * other, other, y, 2);
  }

  /** The name given to a code object parses back to what its header says. */
  lemma DescriptionParses(h: Header)
    requires GetTripleTargetIdFromCodeObject(h).Some? && ':' !in h.processor.value
    ensures ParseTriple(GetTripleTargetIdFromCodeObject(h).value) == Parsed(Described(h), "")
  {
    hide ParseTriple, FlagSet, SupportIn, GetTripleTargetIdFromCodeObject;
    DescriptionIsPrinted(h);
    PrintParses(Described(h));
  }

  lemma DescriptionIsPrinted(h: Header)
    requires GetTripleTargetIdFromCodeObject(h).Some?
    ensures h.processor.Some? && GetTripleTargetIdFromCodeObject(h).value == Print(Described(h))
  {
    hide FlagSet, SupportIn;
  }

  /** The feature character for a two-bit field. */
  function Mark(support: Support): char {
    if support == Off then '-' else if support == On then '+' else ' '
  }

  /** From the flag word of ABI version 4, 5 or 6 to the name: each feature as its two bits
      say. Only version 6 has a generic version. */
  lemma NamedByFlags(h: Header, machine: nat, xnack: Support, sramecc: Support, other: nat, version: nat)
    requires h.amdgpu && h.processor.Some? && h.abi in {V4, V5, V6}
    requires machine < 0x100 && other < 0x1000 && version < 0x100
    requires h.flags == FlagsV4(machine, xnack, sramecc, other, version)
    ensures GetTripleTargetIdFromCodeObject(h) == Some(Print(TargetId(h.processor.value, Mark(sramecc), Mark(xnack))))
    ensures GetGenericVersion(h) == if h.abi == V6 then version else 0
  {
    hide FlagsV4, SupportIn, FlagSet, Print, GetTripleTargetIdFromCodeObject;
    FieldsRead(machine, xnack, sramecc, other, version);
    UnnamedExactly(h);
    DescriptionIsPrinted(h);
  }

  /** The same for version 3, where a supported feature is always decided. */
  lemma NamedByBits(h: Header, machine: nat, xnack: bool, sramecc: bool, other: nat)
    requires h.amdgpu && h.processor.Some? && h.abi == V3 && machine < 0x100
    requires h.flags == FlagsV3(machine, xnack, sramecc, other)
    ensures var id := TargetId(h.processor.value,
                               if !h.sramEccSupported then ' ' else if sramecc then '+' else '-',
                               if !h.xnackSupported then ' ' else if xnack then '+' else '-');
            GetTripleTargetIdFromCodeObject(h) == Some(Print(id)) && GetGenericVersion(h) == 0
  {
    hide FlagsV3, FlagSet, SupportIn, Print, GetTripleTargetIdFromCodeObject;
    BitsRead(machine, xnack, sramecc, other);
    UnnamedExactly(h);
    DescriptionIsPrinted(h);
  }

  /** No other code object has a name: not of AMD GPUs, of an unknown processor, or of
      another version. */
  lemma UnnamedExactly(h: Header)
    ensures GetTripleTargetIdFromCodeObject(h) == None
            <==> !h.amdgpu || h.processor == None || h.abi !in {V3, V4, V5, V6}
  {
  }
}

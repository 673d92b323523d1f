/** The metrics chip read from a Prometheus text body (metrics.rs). Values that are not
    plain integers go through an arbitrary conversion, the parameter float. */
module Metrics {
  import opened Basics
  import opened Text
  import opened LineSplit

  const U64_MAX: nat := 0xFFFF_FFFF_FFFF_FFFF

  type U64 = n: nat | n <= U64_MAX

  datatype Kind = Agents | Rss | Rpc | Other

  datatype MetricsChip = MetricsChip(agents: Option<U64>, rss: Option<U64>, rpc: Option<U64>)

  function SaturatingAdd(a: U64, b: U64): U64 {
    if a + b > U64_MAX then U64_MAX else a + b
  }

  // ------------------------------------------------------------ one line

  function DigitValue(c: char): nat
    requires '0' <= c <= '9'
  {
    (c - '0') as nat
  }

  predicate AllDigits(s: string) {
    forall k :: 0 <= k < |s| ==> '0' <= s[k] <= '9'
  }

  function DecValue(s: string): nat
    requires AllDigits(s)
  {
    if s == "" then 0 else 10 * DecValue(s[..|s| - 1]) + DigitValue(Last(s))
  }

  /** str::parse::<u64>: digits, perhaps after a plus sign, that fit. */
  function ParseU64(token: string): Option<U64> {
    var digits := if token != "" && token[0] == '+' then token[1..] else token;
    if digits != "" && AllDigits(digits) && DecValue(digits) <= U64_MAX then Some(DecValue(digits)) else None
  }

  function FirstWord(s: string): string {
    var t := TrimStart(s);
    t[..Span(t, IsSpace)]
  }

  function ParseMetricNumber(rest: string, float: string -> Option<U64>): Option<U64> {
    var token := FirstWord(rest);
    if token == "" then None
    else if ParseU64(token).Some? then ParseU64(token)
    else float(token)
  }

  /** The name part and the value part. With a closing brace the name is the whole line. */
  function SplitMetricLine(line: string): (string, string) {
    var trimmed := Trim(line);
    var brace := Span(trimmed, c => c == '}');
    if brace < |trimmed| then (trimmed, Trim(trimmed[brace + 1..]))
    else
      var n := Span(trimmed, IsSpace);
      (trimmed[..n], if n < |trimmed| then Trim(trimmed[n + 1..]) else "")
  }

  function MetricBase(name: string): string {
    var brace := Span(name, c => c == '{');
    if brace < |name| then name[..brace]
    else if FirstWord(name) != "" then FirstWord(name) else name
  }

  function Classify(base: string): Kind {
    if base == "rusttraycer_agents" || base == "agents" then Agents
    else if EndsWith(base, "resident_memory_bytes") || base == "rss" || base == "rusttraycer_rss" then Rss
    else if base == "rusttraycer_rpc" || base == "rpc" || EndsWith(base, "_rpc_total") then Rpc
    else Other
  }

  /** What one line of the body contributes. */
  function Sample(rawLine: string, float: string -> Option<U64>): Option<(Kind, U64)> {
    var line := Trim(rawLine);
    if line == "" || line[0] == '#' then None
    else
      var (name, rest) := SplitMetricLine(line);
      match ParseMetricNumber(rest, float)
      case None => None
      case Some(n) => Some((Classify(MetricBase(name)), n))
  }

  // ------------------------------------------------------------ the whole body

  function BodyLines(body: string): seq<string> {
    Lines(body, '\n', '\r')
  }

  /** The values of one kind, in body order. */
  function Values(lines: seq<string>, kind: Kind, float: string -> Option<U64>): seq<U64> {
    if lines == [] then []
    else
      Values(lines[..|lines| - 1], kind, float)
        + match Sample(Last(lines), float)
          case None => []
          case Some((k, n)) => if k == kind then [n] else []
  }

  function Sum(values: seq<nat>): nat {
    if values == [] then 0 else Sum(values[..|values| - 1]) + Last(values)
  }

  /** The sum of the samples, no more than the largest u64; nothing without a sample. */
  function Total(values: seq<U64>): Option<U64> {
    if values == [] then None else Some(if Sum(values) > U64_MAX then U64_MAX else Sum(values))
  }

  function Latest(values: seq<U64>): Option<U64> {
    if values == [] then None else Some(Last(values))
  }

  function ChipOf(lines: seq<string>, float: string -> Option<U64>): MetricsChip {
    MetricsChip(Total(Values(lines, Agents, float)), Latest(Values(lines, Rss, float)),
                Total(Values(lines, Rpc, float)))
  }

  function AddSample(acc: Option<U64>, n: U64): Option<U64> {
    Some(SaturatingAdd(if acc.Some? then acc.value else 0, n))
  }

  lemma TotalAdds(values: seq<U64>, n: U64)
    ensures Total(values + [n]) == AddSample(Total(values), n)
  {
    assert (values + [n])[..|values|] == values;
  }

  lemma LatestIs(values: seq<U64>, n: U64)
    ensures Latest(values + [n]) == Some(n)
  {
  }

  function AddTo(chip: MetricsChip, sample: Option<(Kind, U64)>): MetricsChip {
    match sample
    case Some((Agents, n)) => chip.(agents := AddSample(chip.agents, n))
    case Some((Rss, n)) => chip.(rss := Some(n))
    case Some((Rpc, n)) => chip.(rpc := AddSample(chip.rpc, n))
    case _ => chip
  }

  lemma OneMoreLine(lines: seq<string>, i: nat, float: string -> Option<U64>)
    requires i < |lines|
    ensures ChipOf(lines[..i + 1], float) == AddTo(ChipOf(lines[..i], float), Sample(lines[i], float))
  {
    hide Sample;
    var upto := lines[..i + 1];
    assert upto[..|upto| - 1] == lines[..i] && Last(upto) == lines[i];
    hide Total;
    hide Latest;
    match Sample(lines[i], float) {
      case Some((k, n)) =>
        TotalAdds(Values(lines[..i], k, float), n);
        LatestIs(Values(lines[..i], k, float), n);
        assert forall kind :: kind != k ==> Values(upto, kind, float) == Values(lines[..i], kind, float);
      case None => assert forall kind :: Values(upto, kind, float) == Values(lines[..i], kind, float);
    }
  }

  /** The one-pass saturating fold computes the capped sums and the latest sample. */
  method ParsePrometheus(body: string, float: string -> Option<U64>) returns (chip: MetricsChip)
    ensures chip == ChipOf(BodyLines(body), float)
  {
    hide ChipOf;
    hide Trim;
    hide SplitMetricLine;
    hide ParseMetricNumber;
    hide MetricBase;
    hide EndsWith;
    var lines := BodyLines(body);
    var agents: Option<U64>, rss: Option<U64>, rpc: Option<U64> := None, None, None;
    NoLines(float);
    for i := 0 to |lines|
      invariant MetricsChip(agents, rss, rpc) == ChipOf(lines[..i], float)
    {
      OneMoreLine(lines, i, float);
      var line := Trim(lines[i]);
      if line == "" || line[0] == '#' { continue; }
      var (name, rest) := SplitMetricLine(line);
      var parsed := ParseMetricNumber(rest, float);
      if parsed.None? { continue; }
      var n := parsed.value;
      var base := MetricBase(name);
      if base == "rusttraycer_agents" || base == "agents" {
        agents := Some(SaturatingAdd(if agents.Some? then agents.value else 0, n));
      } else if EndsWith(base, "resident_memory_bytes") || base == "rss" || base == "rusttraycer_rss" {
        rss := Some(n);
      } else if base == "rusttraycer_rpc" || base == "rpc" || EndsWith(base, "_rpc_total") {
        rpc := Some(SaturatingAdd(if rpc.Some? then rpc.value else 0, n));
      }
    }
    assert lines[..|lines|] == lines;
    chip := MetricsChip(agents, rss, rpc);
  }

  lemma NoLines(float: string -> Option<U64>)
    ensures ChipOf([], float) == MetricsChip(None, None, None)
  {
  }

  // ------------------------------------------------------------ combining bodies

  function Both(a: Option<U64>, b: Option<U64>): Option<U64> {
    if a.None? then b else if b.None? then a else Some(SaturatingAdd(a.value, b.value))
  }

  function Combine(a: MetricsChip, b: MetricsChip): MetricsChip {
    MetricsChip(Both(a.agents, b.agents), if b.rss.Some? then b.rss else a.rss, Both(a.rpc, b.rpc))
  }

  lemma {:induction false} ValuesConcat(a: seq<string>, b: seq<string>, kind: Kind, float: string -> Option<U64>)
    ensures Values(a + b, kind, float) == Values(a, kind, float) + Values(b, kind, float)
  {
    hide Sample;
    if b == [] {
      assert a + b == a;
    } else {
      assert (a + b)[..|a + b| - 1] == a + b[..|b| - 1];
      ValuesConcat(a, b[..|b| - 1], kind, float);
    }
  }

  lemma {:induction false} SumConcat(a: seq<nat>, b: seq<nat>)
    ensures Sum(a + b) == Sum(a) + Sum(b)
  {
    if b == [] {
      assert a + b == a;
    } else {
      assert (a + b)[..|a + b| - 1] == a + b[..|b| - 1];
      SumConcat(a, b[..|b| - 1]);
    }
  }

  lemma TotalConcat(a: seq<U64>, b: seq<U64>)
    ensures Total(a + b) == Both(Total(a), Total(b))
  {
    SumConcat(a, b);
    if a == [] { assert a + b == b; }
    if b == [] { assert a + b == a; }
  }

  lemma LatestConcat(a: seq<U64>, b: seq<U64>)
    ensures Latest(a + b) == if b == [] then Latest(a) else Latest(b)
  {
    if b == [] { assert a + b == a; }
  }

  /** A body followed by another reads as the two chips combined. */
  lemma ConcatCombines(a: string, b: string, float: string -> Option<U64>)
    requires a == "" || Last(a) == '\n'
    ensures ChipOf(BodyLines(a + b), float) == Combine(ChipOf(BodyLines(a), float), ChipOf(BodyLines(b), float))
  {
    hide Lines;
    hide Values;
    hide Total;
    hide Both;
    LinesOfConcat(a, b, '\n', '\r');
    var la, lb := BodyLines(a), BodyLines(b);
    ValuesConcat(la, lb, Agents, float);
    ValuesConcat(la, lb, Rss, float);
    ValuesConcat(la, lb, Rpc, float);
    TotalConcat(Values(la, Agents, float), Values(lb, Agents, float));
    LatestConcat(Values(la, Rss, float), Values(lb, Rss, float));
    TotalConcat(Values(la, Rpc, float), Values(lb, Rpc, float));
  }

  // ------------------------------------------------------------ permuting lines

  lemma {:induction false} ValuesPermute(a: seq<string>, b: seq<string>, kind: Kind, float: string -> Option<U64>)
    requires multiset(a) == multiset(b)
    ensures multiset(Values(a, kind, float)) == multiset(Values(b, kind, float))
    decreases |a|
  {
    hide Sample;
    hide Values;
    if a == [] {
      assert |b| == |multiset(b)| == 0;
    } else {
      var x, front := Last(a), a[..|a| - 1];
      var before, after := FindInPermutation(a, b);
      ValuesPermute(front, before + after, kind, float);
      assert a == front + [x];
      ValuesConcat(front, [x], kind, float);
      ValuesConcat(before, after, kind, float);
      ValuesConcat(before + [x], after, kind, float);
      ValuesConcat(before, [x], kind, float);
    }
  }

  lemma {:induction false} SumPermute(a: seq<nat>, b: seq<nat>)
    requires multiset(a) == multiset(b)
    ensures Sum(a) == Sum(b) && (a == [] <==> b == [])
    decreases |a|
  {
    assert |a| == |multiset(a)| == |multiset(b)| == |b|;
    if a != [] {
      var x, front := Last(a), a[..|a| - 1];
      var before, after := FindInPermutation(a, b);
      SumPermute(front, before + after);
      assert a == front + [x];
      SumConcat(front, [x]);
      SumConcat(before, after);
      SumConcat(before + [x], after);
      SumConcat(before, [x]);
    }
  }

  /** The order of the lines matters to neither sum. */
  lemma LineOrderIrrelevant(a: string, b: string, float: string -> Option<U64>)
    requires multiset(BodyLines(a)) == multiset(BodyLines(b))
    ensures ChipOf(BodyLines(a), float).agents == ChipOf(BodyLines(b), float).agents
    ensures ChipOf(BodyLines(a), float).rpc == ChipOf(BodyLines(b), float).rpc
  {
    forall kind ensures Total(Values(BodyLines(a), kind, float)) == Total(Values(BodyLines(b), kind, float)) {
      ValuesPermute(BodyLines(a), BodyLines(b), kind, float);
      SumPermute(Values(BodyLines(a), kind, float), Values(BodyLines(b), kind, float));
    }
  }

  // ------------------------------------------------------------ reading what is written

  function Dec(n: nat): (s: string)
    ensures s != "" && AllDigits(s)
    ensures DecValue(s) == n
  {
    var digit := '0' + (n % 10) as char;
    if n < 10 then [digit]
    else
      var s := Dec(n / 10) + [digit];
      assert s[..|s| - 1] == Dec(n / 10);
      s
  }

  /** A metric name as the text exposition format writes it. */
  predicate IsName(name: string) {
    && name != "" && name[0] != '#'
    && forall k :: 0 <= k < |name| ==> !IsSpace(name[k]) && name[k] != '{' && name[k] != '}'
  }

  function Plain(name: string, n: U64): string {
    name + " " + Dec(n)
  }

  function Labelled(name: string, labels: string, n: U64): string {
    name + "{" + labels + "} " + Dec(n)
  }

  lemma DigitIsNoSpace(c: char)
    requires '0' <= c <= '9'
    ensures !IsSpace(c)
  {
  }

  lemma TrimStartIdentity(s: string)
    requires s != "" && !IsSpace(s[0])
    ensures TrimStart(s) == s
  {
  }

  /** The first word of a text that starts with one. */
  lemma FirstWordOf(word: string, rest: string)
    requires word != "" && forall k :: 0 <= k < |word| ==> !IsSpace(word[k])
    requires rest != "" ==> IsSpace(rest[0])
    ensures FirstWord(word + rest) == word
  {
    hide IsSpace;
    hide TrimStart;
    assert (word + rest)[0] == word[0];
    TrimStartIdentity(word + rest);
    SpanStopsAt(word, rest, IsSpace);
  }

  lemma DigitsAreWord(s: string)
    requires s != "" && AllDigits(s)
    ensures Trim(s) == s && FirstWord(s) == s && s[0] != '+'
  {
    hide IsSpace;
    hide Trim;
    hide FirstWord;
    forall k | 0 <= k < |s| ensures !IsSpace(s[k]) { DigitIsNoSpace(s[k]); }
    TrimFixpoint(s);
    assert s + "" == s;
    FirstWordOf(s, "");
  }

  lemma NumberReadsBack(rest: string, n: U64, float: string -> Option<U64>)
    requires FirstWord(rest) == Dec(n)
    ensures ParseMetricNumber(rest, float) == Some(n)
  {
    hide FirstWord;
    hide Dec;
    hide DecValue;
    DigitsAreWord(Dec(n));
  }

  lemma SpaceIsSpace()
    ensures IsSpace(' ')
  {
  }

  lemma TrimLeadingSpace(s: string)
    ensures Trim(" " + s) == Trim(s)
  {
    assert (" " + s)[1..] == s;
  }

  lemma WrittenIsTrimmed(name: string, middle: string, n: U64)
    requires IsName(name)
    ensures Trim(name + middle + Dec(n)) == name + middle + Dec(n)
  {
    hide Trim;
    hide Dec;
    hide IsSpace;
    var digits := Dec(n);
    var line := name + middle + digits;
    assert line[0] == name[0] && Last(line) == Last(digits);
    DigitIsNoSpace(Last(digits));
    TrimFixpoint(line);
  }

  /** A sample written without labels is read back. */
  lemma PlainReadsBack(name: string, n: U64, float: string -> Option<U64>)
    requires IsName(name)
    ensures Sample(Plain(name, n), float) == Some((Classify(name), n))
  {
    hide ParseMetricNumber;
    hide Classify;
    hide Dec;
    hide IsSpace;
    hide MetricBase;
    hide Trim;
    var digits := Dec(n);
    var line := Plain(name, n);
    WrittenIsTrimmed(name, " ", n);
    assert line == line + "";
    forall k | 0 <= k < |line| ensures line[k] != '}' {
      if k > |name| { assert line[k] == digits[k - |name| - 1]; }
    }
    SpanStopsAt(line, "", c => c == '}');
    assert line == name + (" " + digits);
    SpaceIsSpace();
    SpanStopsAt(name, " " + digits, IsSpace);
    assert line[|name| + 1..] == digits && line[..|name|] == name;
    DigitsAreWord(digits);
    assert SplitMetricLine(line) == (name, digits);
    NameIsBase(name);
    NumberReadsBack(digits, n, float);
  }

  lemma NameIsBase(name: string)
    requires IsName(name)
    ensures MetricBase(name) == name
  {
    hide IsSpace;
    hide FirstWord;
    assert name + "" == name;
    SpanStopsAt(name, "", c => c == '{');
    FirstWordOf(name, "");
  }

  /** How a line with labels is split: at the first brace of each kind. */
  lemma SplitLabelled(name: string, labels: string, rest: string, line: string)
    requires IsName(name) && '}' !in labels
    requires line == name + "{" + labels + "} " + rest && Trim(line) == line && Trim(rest) == rest
    ensures SplitMetricLine(line) == (line, rest) && MetricBase(line) == name
  {
    hide IsSpace;
    hide Trim;
    hide FirstWord;
    var head, tail := name + "{" + labels, "} " + rest;
    assert line == head + tail;
    SpanStopsAt(head, tail, c => c == '}');
    assert line[|head| + 1..] == " " + rest;
    TrimLeadingSpace(rest);
    var after := "{" + labels + tail;
    assert line == name + after;
    SpanStopsAt(name, after, c => c == '{');
    assert line[..|name|] == name;
  }

  /** A sample written with labels is read back if no label holds a closing brace. */
  lemma LabelledReadsBack(name: string, labels: string, n: U64, float: string -> Option<U64>)
    requires IsName(name) && '}' !in labels
    ensures Sample(Labelled(name, labels, n), float) == Some((Classify(name), n))
  {
    hide ParseMetricNumber;
    hide Classify;
    hide Dec;
    hide Trim;
    hide FirstWord;
    hide SplitMetricLine;
    hide MetricBase;
    var digits := Dec(n);
    var line := Labelled(name, labels, n);
    assert line == name + ("{" + labels + "} ") + digits;
    WrittenIsTrimmed(name, "{" + labels + "} ", n);
    DigitsAreWord(digits);
    SplitLabelled(name, labels, digits, line);
    NumberReadsBack(digits, n, float);
  }

  lemma WordStartsText(digits: string, tail: string)
    requires digits != "" && AllDigits(digits) && tail != "" && IsSpace(tail[0]) && !IsSpace(Last(tail))
    ensures FirstWord(digits + tail) == digits && Trim(digits + tail) == digits + tail
  {
    hide IsSpace;
    hide FirstWord;
    hide Trim;
    forall k | 0 <= k < |digits| ensures !IsSpace(digits[k]) { DigitIsNoSpace(digits[k]); }
    FirstWordOf(digits, tail);
    TrimFixpoint(digits + tail);
  }

  // ------------------------------------------------------------ which name counts as what

  /** A sample as a host writes it. */
  datatype Written = Written(name: string, labels: Option<string>, value: U64)

  predicate WellWritten(w: Written) {
    IsName(w.name) && (w.labels.Some? ==> '}' !in w.labels.value && '\n' !in w.labels.value)
  }

  function LineOf(w: Written): string {
    match w.labels
    case None => Plain(w.name, w.value)
    case Some(labels) => Labelled(w.name, labels, w.value)
  }

  predicate CountsAgents(name: string) {
    name == "rusttraycer_agents" || name == "agents"
  }

  predicate GivesMemory(name: string) {
    name == "rss" || name == "rusttraycer_rss" || EndsWith(name, "resident_memory_bytes")
  }

  predicate CountsRpcs(name: string) {
    name == "rusttraycer_rpc" || name == "rpc" || EndsWith(name, "_rpc_total")
  }

  lemma LineReadsBack(w: Written, float: string -> Option<U64>)
    requires WellWritten(w)
    ensures Sample(LineOf(w), float) == Some((Classify(w.name), w.value))
  {
    hide Sample;
    match w.labels {
      case None => PlainReadsBack(w.name, w.value, float);
      case Some(labels) => LabelledReadsBack(w.name, labels, w.value, float);
    }
  }

  lemma LineIsOneLine(w: Written)
    requires WellWritten(w)
    ensures '\n' !in LineOf(w) && LineOf(w) != "" && StripCr(LineOf(w), '\r') == LineOf(w)
  {
    hide Dec;
    hide IsSpace;
    var digits := Dec(w.value);
    LineFeedIsSpace();
    forall k | 0 <= k < |digits| ensures digits[k] != '\n' && digits[k] != '\r' { DigitIsNoSpace(digits[k]); }
    assert Last(LineOf(w)) == Last(digits);
  }

  lemma LineFeedIsSpace()
    ensures IsSpace('\n')
  {
  }

  lemma NamesDiffer(name: string)
    ensures !(CountsAgents(name) && GivesMemory(name)) && !(CountsAgents(name) && CountsRpcs(name))
    ensures !(GivesMemory(name) && CountsRpcs(name))
  {
    assert "resident_memory_bytes"[20] == 's' && "_rpc_total"[9] == 'l' && "rusttraycer_rss"[14] == 's';
    assert "rusttraycer_rpc"[14] == 'c' && "rpc"[2] == 'c' && "rss"[2] == 's';
    assert "rusttraycer_agents"[12] == 'a' && |"rusttraycer_agents"| == 18 && |"resident_memory_bytes"| == 21;
    if EndsWith(name, "resident_memory_bytes") { assert Last(name) == 's' && |name| >= 21; }
    if EndsWith(name, "_rpc_total") { assert Last(name) == 'l'; }
  }

  /** A body of one sample, with or without labels: which field its name fills, and that it fills
      that one only. */
  lemma KindIsRead(w: Written, float: string -> Option<U64>)
    requires WellWritten(w)
    ensures var chip := ChipOf(BodyLines(LineOf(w) + "\n"), float);
            && (CountsAgents(w.name) ==> chip == MetricsChip(Some(w.value), None, None))
            && (GivesMemory(w.name) ==> chip == MetricsChip(None, Some(w.value), None))
            && (CountsRpcs(w.name) ==> chip == MetricsChip(None, None, Some(w.value)))
            && (!CountsAgents(w.name) && !GivesMemory(w.name) && !CountsRpcs(w.name) ==>
                  chip == MetricsChip(None, None, None))
  {
    hide Lines;
    hide Sample;
    hide LineOf;
    hide EndsWith;
    hide IsName;
    hide ChipOf;
    hide StripCr;
    LineIsOneLine(w);
    LineReadsBack(w, float);
    NamesDiffer(w.name);
    var line := LineOf(w);
    assert line + "\n" == line + ['\n'] + [];
    LinesOfFirst(line, [], '\n', '\r');
    LinesNotEmpty<char>([], '\n', '\r');
    OneMoreLine([line], 0, float);
    NoLines(float);
    assert [line][..0] == [] && [line][..0 + 1] == [line] == [line] + [];
  }

  /** The values of the samples whose name is wanted, in order. */
  function ValuesOf(ws: seq<Written>, wanted: string -> bool): seq<U64> {
    if ws == [] then [] else ValuesOf(ws[..|ws| - 1], wanted) + if wanted(Last(ws).name) then [Last(ws).value] else []
  }

  function Body(ws: seq<Written>): string {
    if ws == [] then "" else Body(ws[..|ws| - 1]) + (LineOf(Last(ws)) + "\n")
  }

  /** The sum, no further than the largest u64; nothing if there is nothing to add. */
  function CappedSum(values: seq<U64>): Option<U64> {
    if values == [] then None else if Sum(values) > U64_MAX then Some(U64_MAX) else Some(Sum(values))
  }

  lemma SumSnoc(values: seq<nat>, n: nat)
    ensures Sum(values + [n]) == Sum(values) + n && Sum([n]) == n
  {
    assert (values + [n])[..|values|] == values && [n][..0] == [];
  }

  lemma CappedSnoc(values: seq<U64>, n: U64)
    ensures Both(CappedSum(values), Some(n)) == CappedSum(values + [n])
    ensures Both(CappedSum(values), None) == CappedSum(values)
  {
    SumSnoc(values, n);
  }

  /** A whole body of samples: agents and RPCs are added up, and the last memory sample counts. */
  lemma {:induction false} BodyReadsBack(ws: seq<Written>, float: string -> Option<U64>)
    requires forall w :: w in ws ==> WellWritten(w)
    ensures var chip, memory := ChipOf(BodyLines(Body(ws)), float), ValuesOf(ws, GivesMemory);
            && chip.agents == CappedSum(ValuesOf(ws, CountsAgents))
            && chip.rss == (if memory == [] then None else Some(memory[|memory| - 1]))
            && chip.rpc == CappedSum(ValuesOf(ws, CountsRpcs))
  {
    hide ChipOf;
    hide Lines;
    hide LineOf;
    hide CountsAgents;
    hide GivesMemory;
    hide CountsRpcs;
    hide WellWritten;
    hide CappedSum;
    hide Both;
    hide ValuesOf;
    hide Body;
    if ws == [] {
      NoLines(float);
      LinesNotEmpty<char>([], '\n', '\r');
      NothingToAdd();
    } else {
      var front, w := ws[..|ws| - 1], Last(ws);
      ValuesStep(ws, CountsAgents);
      ValuesStep(ws, GivesMemory);
      ValuesStep(ws, CountsRpcs);
      BodyStep(ws);
      assert w in ws && forall x :: x in front ==> x in ws;
      BodyReadsBack(front, float);
      BodyEnds(front);
      ConcatCombines(Body(front), LineOf(w) + "\n", float);
      KindIsRead(w, float);
      NamesDiffer(w.name);
      CappedSnoc(ValuesOf(front, CountsAgents), w.value);
      CappedSnoc(ValuesOf(front, CountsRpcs), w.value);
    }
  }

  lemma NothingToAdd()
    ensures CappedSum([]) == None && Body([]) == ""
    ensures ValuesOf([], CountsAgents) == ValuesOf([], GivesMemory) == ValuesOf([], CountsRpcs) == []
  {
  }

  lemma ValuesStep(ws: seq<Written>, wanted: string -> bool)
    requires ws != []
    ensures var front := ValuesOf(ws[..|ws| - 1], wanted);
            ValuesOf(ws, wanted) == if wanted(Last(ws).name) then front + [Last(ws).value] else front
  {
  }

  lemma BodyStep(ws: seq<Written>)
    requires ws != []
    ensures Body(ws) == Body(ws[..|ws| - 1]) + (LineOf(Last(ws)) + "\n")
  {
    hide LineOf;
  }

  lemma BodyEnds(ws: seq<Written>)
    ensures Body(ws) == "" || Last(Body(ws)) == '\n'
  {
    hide LineOf;
  }

  // ------------------------------------------------------------ comments and other values

  /** Blank lines and comments count for nothing, wherever they stand. */
  lemma CommentsAreIgnored(line: string, a: string, b: string, float: string -> Option<U64>)
    requires '\n' !in line && (Trim(line) == "" || Trim(line)[0] == '#')
    requires a == "" || Last(a) == '\n'
    ensures ChipOf(BodyLines(a + (line + "\n") + b), float) == ChipOf(BodyLines(a + b), float)
  {
    hide ChipOf;
    hide Lines;
    hide Trim;
    hide StripCr;
    hide Both;
    assert line + "\n" == line + ['\n'] + [];
    LinesOfFirst(line, [], '\n', '\r');
    LinesNotEmpty<char>([], '\n', '\r');
    StripCrIsTrimmed(line);
    NothingSampled(StripCr(line, '\r'), float);
    assert BodyLines(line + "\n") == [StripCr(line, '\r')];
    ConcatCombines(a + (line + "\n"), b, float);
    ConcatCombines(a, line + "\n", float);
    ConcatCombines(a, b, float);
    CombineWithNothing(ChipOf(BodyLines(a), float), ChipOf(BodyLines(b), float));
  }

  lemma NothingSampled(line: string, float: string -> Option<U64>)
    requires Trim(line) == "" || Trim(line)[0] == '#'
    ensures ChipOf([line], float) == MetricsChip(None, None, None)
  {
    hide Trim;
    hide SplitMetricLine;
    hide ChipOf;
    NoLines(float);
    OneMoreLine([line], 0, float);
    assert [line][..0] == [] && [line][..0 + 1] == [line];
  }

  /** A word a value can be: without white space and closing braces. */
  predicate IsWord(word: string) {
    word != "" && forall k :: 0 <= k < |word| ==> !IsSpace(word[k]) && word[k] != '}'
  }

  lemma WordIsRead(name: string, word: string, float: string -> Option<U64>)
    requires IsName(name) && IsWord(word)
    ensures var n := if ParseU64(word).Some? then ParseU64(word) else float(word);
            Sample(name + " " + word, float) == if n.Some? then Some((Classify(name), n.value)) else None
  {
    hide ParseU64;
    hide Classify;
    hide IsSpace;
    hide MetricBase;
    hide Trim;
    hide FirstWord;
    hide SplitMetricLine;
    var line := name + " " + word;
    TrimFixpoint(line);
    TrimFixpoint(word);
    SpaceIsSpace();
    assert line == name + (" " + word) && line == line + "" && word == word + "";
    forall k | 0 <= k < |line| ensures line[k] != '}' {
      if k > |name| { assert line[k] == word[k - |name| - 1]; }
    }
    SpanStopsAt(line, "", c => c == '}');
    SpanStopsAt(name, " " + word, IsSpace);
    SplitNoBrace(line, |name|);
    assert line[|name| + 1..] == word && line[..|name|] == name;
    NameIsBase(name);
    FirstWordOf(word, "");
  }

  /** Digits after a plus sign are read like digits; a word that is no u64 is read as float makes of it,
      and counts for nothing if float makes nothing of it. */
  lemma OtherValuesAreRead(name: string, n: U64, word: string, float: string -> Option<U64>)
    requires IsName(name) && IsWord(word)
    ensures Sample(name + " " + ("+" + Dec(n)), float) == Sample(Plain(name, n), float)
    ensures ParseU64(word) == None ==>
              Sample(name + " " + word, float)
              == if float(word).Some? then Sample(Plain(name, float(word).value), float) else None
  {
    hide Sample;
    hide Dec;
    hide IsSpace;
    hide Classify;
    hide DecValue;
    var digits := Dec(n);
    PlainReadsBack(name, n, float);
    PlusIsWord(digits);
    WordIsRead(name, "+" + digits, float);
    assert ("+" + digits)[1..] == digits;
    WordIsRead(name, word, float);
    if float(word).Some? { PlainReadsBack(name, float(word).value, float); }
  }

  lemma PlusIsWord(digits: string)
    requires digits != "" && AllDigits(digits)
    ensures IsWord("+" + digits)
  {
  }

  /** The text exposition format allows a closing brace inside a quoted label value. The
      reader stops at the first brace, so it can take a number out of the label for the
      sample, whatever the sample's own value is. */
  lemma BraceInLabelMisreads(name: string, before: string, m: U64, after: string, n: U64, float: string -> Option<U64>)
    requires IsName(name) && '}' !in before
    ensures Sample(Labelled(name, before + "} " + Dec(m) + " " + after, n), float) == Some((Classify(name), m))
  {
    hide ParseMetricNumber;
    hide Classify;
    hide Dec;
    hide IsSpace;
    hide Trim;
    hide FirstWord;
    hide SplitMetricLine;
    hide MetricBase;
    var wrong, digits := Dec(m), Dec(n);
    var labels := before + "} " + wrong + " " + after;
    var line := Labelled(name, labels, n);
    WrittenIsTrimmed(name, "{" + labels + "} ", n);
    assert line == name + ("{" + labels + "} ") + digits;
    var tail := " " + after + "} " + digits;
    SpaceIsSpace();
    DigitIsNoSpace(Last(digits));
    WordStartsText(wrong, tail);
    assert line == name + "{" + before + "} " + (wrong + tail);
    SplitLabelled(name, before, wrong + tail, line);
    NumberReadsBack(wrong + tail, m, float);
  }

  // ------------------------------------------------------------ what the reader ignores

  lemma {:induction false} TrimStartPast(head: string, rest: string)
    requires TrimStart(head) != ""
    ensures TrimStart(head + rest) == TrimStart(head) + rest
  {
    hide IsSpace;
    if head != "" && IsSpace(head[0]) {
      assert (head + rest)[1..] == head[1..] + rest;
      TrimStartPast(head[1..], rest);
    }
  }

  lemma {:induction false} SpanPast(head: string, rest: string, stop: char -> bool)
    requires rest != "" && stop(rest[0])
    ensures Span(head + rest, stop) == Span(head, stop)
  {
    if head == "" {
      assert head + rest == rest;
    } else {
      assert (head + rest)[1..] == head[1..] + rest;
      SpanPast(head[1..], rest, stop);
    }
  }

  lemma FirstWordOfPrefix(t: string, n: nat)
    requires 0 < n <= |t| && !IsSpace(t[0]) && (n < |t| ==> IsSpace(t[n]))
    ensures FirstWord(t[..n]) == FirstWord(t)
  {
    hide IsSpace;
    hide TrimStart;
    var r := t[..n];
    TrimStartIdentity(r);
    TrimStartIdentity(t);
    if n < |t| {
      assert t == r + t[n..];
      SpanPast(r, t[n..], IsSpace);
    } else {
      assert r == t;
    }
  }

  /** Trimming a text keeps its first word. */
  lemma FirstWordOfTrimmed(s: string)
    ensures FirstWord(Trim(s)) == FirstWord(s)
  {
    hide IsSpace;
    hide TrimStart;
    hide TrimEnd;
    hide FirstWord;
    FirstWordStarts(s);
    FirstWordOfEnd(TrimStart(s));
  }

  lemma FirstWordOfEnd(t: string)
    requires t == "" || !IsSpace(t[0])
    ensures FirstWord(TrimEnd(t)) == FirstWord(t)
  {
    hide IsSpace;
    hide TrimStart;
    hide TrimEnd;
    hide FirstWord;
    var r := TrimEnd(t);
    EndIsSpace(t);
    if t != "" {
      FirstIsKept(t);
      assert r == t[..|r|];
      FirstWordOfPrefix(t, |r|);
    }
  }

  lemma FirstWordStarts(s: string)
    ensures FirstWord(TrimStart(s)) == FirstWord(s)
  {
    hide IsSpace;
    if TrimStart(s) != "" { TrimStartIdentity(TrimStart(s)); }
  }

  lemma {:induction false} EndIsSpace(s: string)
    ensures TrimEnd(s) != s ==> IsSpace(s[|TrimEnd(s)|])
  {
    hide IsSpace;
    if s != "" && IsSpace(Last(s)) {
      EndIsSpace(s[..|s| - 1]);
    }
  }

  /** What follows a word and a space is not part of the first word. */
  lemma FirstWordPast(head: string, digits: string)
    requires head != "" && !IsSpace(Last(head))
    ensures FirstWord(head + (" " + digits)) == FirstWord(head)
  {
    hide IsSpace;
    hide TrimStart;
    EndsInWord(head);
    var tail := " " + digits;
    var t := TrimStart(head);
    TrimStartPast(head, tail);
    SpaceIsSpace();
    SpanPast(t, tail, IsSpace);
    assert (t + tail)[..Span(t, IsSpace)] == t[..Span(t, IsSpace)];
  }

  lemma EndsInWord(s: string)
    requires s != "" && !IsSpace(Last(s))
    ensures Trim(s) != "" && TrimStart(s) != ""
  {
    hide IsSpace;
    LastIsKept(s);
  }

  lemma {:induction false} LastIsKept(s: string)
    requires s != "" && !IsSpace(Last(s))
    ensures TrimStart(s) != "" && Last(TrimStart(s)) == Last(s)
  {
    hide IsSpace;
    if IsSpace(s[0]) { LastIsKept(s[1..]); }
  }

  /** A line of which the reader has seen enough before its last number: a closing brace with
      text after it, or no closing brace and a second word. */
  predicate Settled(text: string) {
    && Trimmed(text) && text != ""
    && var brace := Span(text, c => c == '}');
       if brace < |text| then brace < |text| - 1 else Span(text, IsSpace) < |text|
  }

  lemma SettledLineIsTrimmed(text: string, digits: string)
    requires Settled(text) && digits != "" && AllDigits(digits)
    ensures Trim(text + (" " + digits)) == text + (" " + digits)
  {
    hide IsSpace;
    hide Trim;
    var line := text + (" " + digits);
    DigitIsNoSpace(Last(digits));
    assert Last(line) == Last(digits) && line[0] == text[0];
    TrimFixpoint(line);
  }

  lemma SplitAtBrace(text: string, digits: string, brace: nat)
    requires Settled(text) && digits != "" && AllDigits(digits)
    requires brace == Span(text, c => c == '}') && brace < |text|
    ensures SplitMetricLine(text + (" " + digits)).0 == text + (" " + digits)
    ensures FirstWord(SplitMetricLine(text + (" " + digits)).1) == FirstWord(text[brace + 1..])
  {
    hide IsSpace;
    hide FirstWord;
    hide Trim;
    hide SplitMetricLine;
    var tail := " " + digits;
    var line := text + tail;
    SettledLineIsTrimmed(text, digits);
    SpanSame(text, tail, c => c == '}');
    SplitBrace(line, brace);
    var after := text[brace + 1..];
    assert Last(after) == Last(text) && line[brace + 1..] == after + tail;
    FirstWordPast(after, digits);
    FirstWordOfTrimmed(after + tail);
  }

  lemma SplitBrace(line: string, brace: nat)
    requires Trim(line) == line && brace == Span(line, c => c == '}') < |line|
    ensures SplitMetricLine(line) == (line, Trim(line[brace + 1..]))
  {
    hide IsSpace;
    hide Trim;
    hide Span;
  }

  lemma SplitNoBrace(line: string, n: nat)
    requires Trim(line) == line && Span(line, c => c == '}') == |line| && n == Span(line, IsSpace) < |line|
    ensures SplitMetricLine(line) == (line[..n], Trim(line[n + 1..]))
  {
    hide IsSpace;
    hide Trim;
  }

  lemma SplitAtSpace(text: string, digits: string, n: nat)
    requires Settled(text) && digits != "" && AllDigits(digits)
    requires Span(text, c => c == '}') == |text| && n == Span(text, IsSpace)
    ensures n < |text| && SplitMetricLine(text + (" " + digits)).0 == text[..n]
    ensures FirstWord(SplitMetricLine(text + (" " + digits)).1) == FirstWord(text[n + 1..])
  {
    hide IsSpace;
    hide FirstWord;
    hide Trim;
    hide SplitMetricLine;
    hide Settled;
    hide Span;
    var tail := " " + digits;
    var line := text + tail;
    SettledLineIsTrimmed(text, digits);
    NoBraceInLine(text, digits);
    AfterSpace(text, n);
    SpanSame(text, tail, IsSpace);
    SplitNoBrace(line, n);
    assert line[n + 1..] == text[n + 1..] + tail && line[..n] == text[..n];
    FirstWordPast(text[n + 1..], digits);
    FirstWordOfTrimmed(text[n + 1..] + tail);
  }

  lemma AfterSpace(text: string, n: nat)
    requires Settled(text) && Span(text, c => c == '}') == |text| && n == Span(text, IsSpace)
    ensures n + 1 < |text| && text[n + 1..] != "" && !IsSpace(Last(text[n + 1..]))
  {
    hide IsSpace;
    assert n < |text| - 1;
    assert Last(text[n + 1..]) == Last(text);
  }

  lemma NoBraceInLine(text: string, digits: string)
    requires Span(text, c => c == '}') == |text| && AllDigits(digits)
    ensures Span(text + (" " + digits), c => c == '}') == |text + (" " + digits)|
  {
    var line := text + (" " + digits);
    forall k | 0 <= k < |line| ensures line[k] != '}' {
      if k > |text| { assert line[k] == digits[k - |text| - 1]; }
    }
    assert line + "" == line;
    SpanStopsAt(line, "", c => c == '}');
  }

  lemma {:induction false} SpanSame(head: string, rest: string, stop: char -> bool)
    requires Span(head, stop) < |head|
    ensures Span(head + rest, stop) == Span(head, stop)
  {
    if !stop(head[0]) {
      assert (head + rest)[1..] == head[1..] + rest;
      SpanSame(head[1..], rest, stop);
    }
  }

  lemma BaseOfSettled(text: string, digits: string)
    requires Settled(text) && digits != "" && AllDigits(digits)
    ensures MetricBase(text + (" " + digits)) == MetricBase(text)
  {
    hide IsSpace;
    hide FirstWord;
    var tail := " " + digits;
    var brace := Span(text, c => c == '{');
    if brace < |text| {
      SpanSame(text, tail, c => c == '{');
      assert (text + tail)[..brace] == text[..brace];
    } else {
      var line := text + tail;
      forall k | 0 <= k < |line| ensures line[k] != '{' {
        if k > |text| { assert line[k] == digits[k - |text| - 1]; }
      }
      assert line + "" == line;
      SpanStopsAt(line, "", c => c == '{');
      FirstWordPast(text, digits);
      FirstWordNotEmpty(text);
    }
  }

  lemma FirstWordNotEmpty(text: string)
    requires text != "" && !IsSpace(text[0])
    ensures FirstWord(text) != ""
  {
    hide IsSpace;
    TrimStartIdentity(text);
  }

  /** Then the last number of the line does not matter. */
  lemma LastNumberIgnored(text: string, d: string, e: string, float: string -> Option<U64>)
    requires Settled(text) && d != "" && AllDigits(d) && e != "" && AllDigits(e)
    ensures Sample(text + (" " + d), float) == Sample(text + (" " + e), float)
  {
    hide IsSpace;
    hide FirstWord;
    hide Trim;
    hide SplitMetricLine;
    hide MetricBase;
    hide Classify;
    hide ParseU64;
    SettledLineIsTrimmed(text, d);
    SettledLineIsTrimmed(text, e);
    var brace := Span(text, c => c == '}');
    if brace < |text| {
      SplitAtBrace(text, d, brace);
      SplitAtBrace(text, e, brace);
    } else {
      SplitAtSpace(text, d, Span(text, IsSpace));
      SplitAtSpace(text, e, Span(text, IsSpace));
    }
    BaseOfSettled(text, d);
    BaseOfSettled(text, e);
    assert (text + (" " + d))[0] == text[0] == (text + (" " + e))[0];
  }

  /** A labelled sample is read back, whatever its value, exactly when no label holds a closing
      brace: past such a brace the reader no longer looks at the value. */
  lemma LabelledReadsBackIff(name: string, labels: string, float: string -> Option<U64>)
    requires IsName(name)
    ensures (forall n: U64 :: Sample(Labelled(name, labels, n), float) == Some((Classify(name), n)))
            <==> '}' !in labels
  {
    hide Sample;
    hide Classify;
    hide Dec;
    hide Settled;
    if '}' !in labels {
      forall n: U64 ensures Sample(Labelled(name, labels, n), float) == Some((Classify(name), n)) {
        LabelledReadsBack(name, labels, n, float);
      }
    } else {
      var text := name + "{" + labels + "}";
      BraceSettles(name, labels);
      LastNumberIgnored(text, Dec(0), Dec(1), float);
      assert Labelled(name, labels, 0) == text + (" " + Dec(0));
      assert Labelled(name, labels, 1) == text + (" " + Dec(1));
    }
  }

  lemma BraceSettles(name: string, labels: string)
    requires IsName(name) && '}' in labels
    ensures Settled(name + "{" + labels + "}")
  {
    hide IsSpace;
    var text := name + "{" + labels + "}";
    var k :| 0 <= k < |labels| && labels[k] == '}';
    assert text[|name| + 1 + k] == '}';
    BraceIsNoSpace();
    assert text[0] == name[0] && Last(text) == '}';
  }

  lemma BraceIsNoSpace()
    ensures !IsSpace('}')
  {
  }

  // ------------------------------------------------------------ bodies cut off in a line

  /** What follows the last line feed. */
  function LastPart(body: string): (r: string)
    ensures '\n' !in r && |r| <= |body|
  {
    if body == "" || Last(body) == '\n' then "" else LastPart(body[..|body| - 1]) + [Last(body)]
  }

  lemma {:induction false} LastPartEnds(body: string) returns (whole: string)
    ensures body == whole + LastPart(body)
    ensures whole == "" || Last(whole) == '\n'
  {
    if body == "" || Last(body) == '\n' {
      whole := body;
      assert body + "" == body;
    } else {
      var front := body[..|body| - 1];
      whole := LastPartEnds(front);
      assert body == front + [Last(body)];
      ConcatAssociates(whole, LastPart(front), [Last(body)]);
    }
  }

  lemma {:induction false} TrimPastBlank(blank: string, rest: string)
    requires Trim(blank) == ""
    ensures Trim(blank + rest) == Trim(rest)
  {
    hide IsSpace;
    if blank == "" {
      assert blank + rest == rest;
    } else {
      BlankStart(blank);
      assert (blank + rest)[1..] == blank[1..] + rest;
      TrimPastBlank(blank[1..], rest);
    }
  }

  lemma BlankStart(blank: string)
    requires blank != "" && Trim(blank) == ""
    ensures IsSpace(blank[0]) && Trim(blank[1..]) == ""
  {
    hide IsSpace;
    if !IsSpace(blank[0]) { TrimStartIdentity(blank); FirstIsKept(blank); }
  }

  lemma {:induction false} FirstIsKept(s: string)
    requires s != "" && !IsSpace(s[0])
    ensures TrimEnd(s) != ""
  {
    hide IsSpace;
    if IsSpace(Last(s)) { FirstIsKept(s[..|s| - 1]); }
  }

  /** A carriage return at the end of a line is white space and does not matter. */
  lemma StripCrIsTrimmed(line: string)
    ensures Trim(StripCr(line, '\r')) == Trim(line)
  {
    hide IsSpace;
    if line != "" && Last(line) == '\r' {
      CrIsSpace();
      TrimWithoutLast(line);
    }
  }

  lemma CrIsSpace()
    ensures IsSpace('\r')
  {
  }

  lemma {:induction false} TrimWithoutLast(s: string)
    requires s != "" && IsSpace(Last(s))
    ensures Trim(s) == Trim(s[..|s| - 1])
  {
    hide IsSpace;
    hide Trim;
    var front := s[..|s| - 1];
    if |s| == 1 {
      TrimStep(s);
      assert s[1..] == front;
    } else if IsSpace(s[0]) {
      TrimStep(s);
      TrimStep(front);
      assert s[1..][..|s| - 2] == front[1..];
      TrimWithoutLast(s[1..]);
    } else {
      TrimUnstarted(s);
      TrimUnstarted(front);
    }
  }

  lemma TrimStep(s: string)
    requires s != "" && IsSpace(s[0])
    ensures Trim(s) == Trim(s[1..])
  {
    hide IsSpace;
    hide TrimEnd;
  }

  lemma TrimUnstarted(s: string)
    requires s != "" && !IsSpace(s[0])
    ensures Trim(s) == TrimEnd(s)
  {
    hide IsSpace;
    hide TrimEnd;
  }

  lemma SampleOfTrimmed(a: string, b: string, float: string -> Option<U64>)
    requires Trim(a) == Trim(b)
    ensures Sample(a, float) == Sample(b, float)
  {
    hide Trim;
    hide SplitMetricLine;
  }

  /** A blank start changes nothing. */
  lemma BlankStartIgnored(blank: string, b: string, float: string -> Option<U64>)
    requires Trim(blank) == "" && '\n' !in blank
    ensures ChipOf(BodyLines(blank + b), float) == ChipOf(BodyLines(b), float)
  {
    hide Lines;
    hide UntilLf;
    hide Trim;
    hide Sample;
    hide ChipOf;
    hide StripCr;
    var line, next := FirstLine(b, '\n');
    TrimPastBlank(blank, line);
    if '\n' in b {
      assert blank + b == (blank + line) + ['\n'] + next;
      LinesOfFirst(line, next, '\n', '\r');
      LinesOfFirst(blank + line, next, '\n', '\r');
      StripCrIsTrimmed(line);
      StripCrIsTrimmed(blank + line);
      SameFirstSample(StripCr(blank + line, '\r'), StripCr(line, '\r'), Lines(next, '\n', '\r'), float);
    } else if b != "" {
      LinesOfLast(line, '\n', '\r');
      LinesOfLast(blank + line, '\n', '\r');
      SameFirstSample(blank + line, line, [], float);
      assert [blank + line] + [] == [blank + line] && [line] + [] == [line];
    } else if blank != "" {
      assert blank + b == blank;
      LinesOfLast(blank, '\n', '\r');
      LinesNotEmpty(b, '\n', '\r');
      NoSample(blank, float);
    }
  }

  lemma NoSample(blank: string, float: string -> Option<U64>)
    requires Trim(blank) == ""
    ensures ChipOf([blank], float) == ChipOf([], float)
  {
    hide Trim;
    hide SplitMetricLine;
    assert [blank][..0] == [];
  }

  lemma SameFirstSample(x: string, y: string, more: seq<string>, float: string -> Option<U64>)
    requires Trim(x) == Trim(y)
    ensures ChipOf([x] + more, float) == ChipOf([y] + more, float)
  {
    hide Trim;
    hide Sample;
    SampleOfTrimmed(x, y, float);
    assert [x][..0] == [] && [y][..0] == [];
    forall kind ensures Values([x] + more, kind, float) == Values([y] + more, kind, float) {
      ValuesConcat([x], more, kind, float);
      ValuesConcat([y], more, kind, float);
    }
  }

  lemma CombineWithNothing(a: MetricsChip, b: MetricsChip)
    ensures Combine(Combine(a, MetricsChip(None, None, None)), b) == Combine(a, b)
  {
  }

  lemma BlankEndCombines(a: string, b: string, float: string -> Option<U64>)
    requires Trim(LastPart(a)) == ""
    ensures ChipOf(BodyLines(a + b), float) == Combine(ChipOf(BodyLines(a), float), ChipOf(BodyLines(b), float))
  {
    hide ChipOf;
    hide Trim;
    hide Combine;
    hide LastPart;
    hide Lines;
    var part := LastPart(a);
    var whole := LastPartEnds(a);
    assert a + b == whole + (part + b);
    ConcatCombines(whole, part + b, float);
    BlankStartIgnored(part, b, float);
    ConcatCombines(whole, part, float);
    BlankReadsNothing(part, float);
    CombineWithNothing(ChipOf(BodyLines(whole), float), ChipOf(BodyLines(b), float));
  }

  lemma BlankReadsNothing(blank: string, float: string -> Option<U64>)
    requires Trim(blank) == "" && '\n' !in blank
    ensures ChipOf(BodyLines(blank), float) == MetricsChip(None, None, None)
  {
    hide ChipOf;
    hide Trim;
    assert blank + "" == blank;
    BlankStartIgnored(blank, "", float);
    NoLines(float);
  }

  function Probe(n: U64): string {
    " rss " + Dec(n)
  }

  lemma ProbeIsOneLine(n: U64)
    ensures BodyLines(Probe(n)) == [Probe(n)] && '\n' !in Probe(n)
  {
    hide Dec;
    hide Lines;
    forall k | 0 <= k < |Dec(n)| ensures Dec(n)[k] != '\n' { DigitIsNoSpace(Dec(n)[k]); }
    LinesOfLast(Probe(n), '\n', '\r');
  }

  lemma ProbeSample(n: U64, float: string -> Option<U64>)
    ensures Sample(Probe(n), float) == Some((Rss, n))
  {
    hide Sample;
    hide Dec;
    hide Trim;
    assert Probe(n) == " " + Plain("rss", n);
    TrimLeadingSpace(Plain("rss", n));
    SampleOfTrimmed(Probe(n), Plain("rss", n), float);
    RssIsName();
    PlainReadsBack("rss", n, float);
  }

  lemma RssIsName()
    ensures IsName("rss") && Classify("rss") == Rss
  {
  }

  lemma ProbeReads(n: U64, float: string -> Option<U64>)
    ensures ChipOf(BodyLines(Probe(n)), float).rss == Some(n)
  {
    hide Sample;
    hide Probe;
    ProbeIsOneLine(n);
    ProbeSample(n, float);
    assert [Probe(n)][..0] == [];
  }

  /** After the unfinished line, a probe is read with a value that does not depend on it. */
  lemma ProbeIsIgnored(part: string, float: string -> Option<U64>)
    requires Trim(part) != ""
    ensures Sample(part + Probe(0), float) == Sample(part + Probe(1), float)
  {
    hide IsSpace;
    hide Sample;
    hide Dec;
    hide Trim;
    hide TrimStart;
    hide Settled;
    var t := TrimStart(part) + " rss";
    ProbeStart(part, 0);
    ProbeStart(part, 1);
    ProbeSettles(TrimStart(part));
    LastNumberIgnored(t, Dec(0), Dec(1), float);
    SampleOfStart(part + Probe(0), float);
    SampleOfStart(part + Probe(1), float);
  }

  lemma ProbeStart(part: string, n: U64)
    requires Trim(part) != ""
    ensures TrimStart(part) != "" && TrimStart(part + Probe(n)) == TrimStart(part) + " rss" + (" " + Dec(n))
  {
    hide IsSpace;
    hide Dec;
    hide TrimStart;
    hide TrimEnd;
    TrimStartPast(part, Probe(n));
    var t := TrimStart(part);
    assert t + Probe(n) == t + " rss" + (" " + Dec(n));
  }

  lemma SampleOfStart(s: string, float: string -> Option<U64>)
    ensures Sample(TrimStart(s), float) == Sample(s, float)
  {
    hide IsSpace;
    hide Sample;
    if TrimStart(s) != "" { TrimStartIdentity(TrimStart(s)); }
    SampleOfTrimmed(TrimStart(s), s, float);
  }

  lemma ProbeSettles(start: string)
    requires start != "" && !IsSpace(start[0])
    ensures Settled(start + " rss")
  {
    hide IsSpace;
    SpaceIsSpace();
    LetterIsNoSpace();
    var t := start + " rss";
    assert t[|start|] == ' ' && Last(t) == 's' && t[0] == start[0] && t[|start| + 1] == 'r' && t[|start| + 2] == 's';
  }

  lemma LetterIsNoSpace()
    ensures !IsSpace('s')
  {
  }

  /** A body combines with every body that may follow it exactly when it does not end in the
      middle of a line, blanks aside. */
  lemma ConcatCombinesIff(a: string, float: string -> Option<U64>)
    ensures (forall b :: ChipOf(BodyLines(a + b), float)
                         == Combine(ChipOf(BodyLines(a), float), ChipOf(BodyLines(b), float)))
            <==> Trim(LastPart(a)) == ""
  {
    hide ChipOf;
    hide Trim;
    hide Combine;
    hide LastPart;
    hide Probe;
    if Trim(LastPart(a)) == "" {
      forall b ensures ChipOf(BodyLines(a + b), float)
                       == Combine(ChipOf(BodyLines(a), float), ChipOf(BodyLines(b), float))
      {
        BlankEndCombines(a, b, float);
      }
    } else {
      ProbeFails(a, float);
    }
  }

  lemma ProbeFails(a: string, float: string -> Option<U64>)
    requires Trim(LastPart(a)) != ""
    ensures exists n: U64 :: ChipOf(BodyLines(a + Probe(n)), float)
                             != Combine(ChipOf(BodyLines(a), float), ChipOf(BodyLines(Probe(n)), float))
  {
    hide Trim;
    hide LastPart;
    hide Probe;
    hide Sample;
    hide ChipOf;
    ProbeIsIgnored(LastPart(a), float);
    ProbeReads(0, float);
    ProbeReads(1, float);
    ProbeIsOneLine(0);
    ProbeIsOneLine(1);
    SameAfterProbe(a, float);
    assert Combine(ChipOf(BodyLines(a), float), ChipOf(BodyLines(Probe(0)), float)).rss == Some(0);
    assert Combine(ChipOf(BodyLines(a), float), ChipOf(BodyLines(Probe(1)), float)).rss == Some(1);
  }

  lemma SameAfterProbe(a: string, float: string -> Option<U64>)
    requires Sample(LastPart(a) + Probe(0), float) == Sample(LastPart(a) + Probe(1), float)
    requires '\n' !in Probe(0) && '\n' !in Probe(1)
    ensures ChipOf(BodyLines(a + Probe(0)), float) == ChipOf(BodyLines(a + Probe(1)), float)
  {
    hide LastPart;
    hide Sample;
    hide Combine;
    hide Lines;
    hide UntilLf;
    var part := LastPart(a);
    var whole := LastPartEnds(a);
    forall n: U64 | n <= 1 ensures
      ChipOf(BodyLines(a + Probe(n)), float)
      == Combine(ChipOf(BodyLines(whole), float), ChipOf([part + Probe(n)], float))
    {
      assert a + Probe(n) == whole + (part + Probe(n));
      ConcatCombines(whole, part + Probe(n), float);
      LinesOfLast(part + Probe(n), '\n', '\r');
    }
    assert [part + Probe(0)][..0] == [] && [part + Probe(1)][..0] == [];
    forall kind ensures Values([part + Probe(0)], kind, float) == Values([part + Probe(1)], kind, float) {
    }
  }
}

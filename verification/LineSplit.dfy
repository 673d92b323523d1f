/** str::lines and its inverse, for any alphabet with a line feed and a carriage return. */
module LineSplit {
  import opened Basics

  /** The position of the first lf, or the length. */
  function UntilLf<T(==)>(text: seq<T>, lf: T): (n: nat)
    ensures n <= |text|
    ensures lf !in text[..n]
    ensures n < |text| ==> text[n] == lf
  {
    if text == [] || text[0] == lf then 0
    else
      var n := 1 + UntilLf(text[1..], lf);
      assert text[..n] == [text[0]] + text[1..][..n - 1];
      n
  }

  function StripCr<T(==)>(line: seq<T>, cr: T): seq<T> {
    if line != [] && Last(line) == cr then line[..|line| - 1] else line
  }

  /** Each line loses its line feed and one carriage return before it. A last line
      without a line feed is kept as it is. */
  function Lines<T(==)>(text: seq<T>, lf: T, cr: T): seq<seq<T>> {
    if text == [] then []
    else
      var n := UntilLf(text, lf);
      if n == |text| then [text] else [StripCr(text[..n], cr)] + Lines(text[n + 1..], lf, cr)
  }

  function Join<T>(lines: seq<seq<T>>, lf: T): seq<T> {
    if lines == [] then []
    else if |lines| == 1 then lines[0]
    else lines[0] + [lf] + Join(lines[1..], lf)
  }

  predicate Terminated<T(==)>(text: seq<T>, lf: T) {
    text != [] && Last(text) == lf
  }

  function End<T>(terminated: bool, lf: T): seq<T> {
    if terminated then [lf] else []
  }

  /** The text with the carriage return of every CR LF pair left out. */
  function DropCr<T(==)>(text: seq<T>, lf: T, cr: T): seq<T> {
    if text == [] then []
    else if |text| > 1 && text[0] == cr && text[1] == lf then DropCr(text[1..], lf, cr)
    else [text[0]] + DropCr(text[1..], lf, cr)
  }

  ghost predicate NoCrLf<T>(text: seq<T>, lf: T, cr: T) {
    forall i :: 0 <= i < |text| - 1 && text[i] == cr ==> text[i + 1] != lf
  }

  lemma {:induction false} DropCrIdentity<T>(text: seq<T>, lf: T, cr: T)
    requires NoCrLf(text, lf, cr)
    ensures DropCr(text, lf, cr) == text
  {
    if text != [] {
      var rest := text[1..];
      forall i | 0 <= i < |rest| - 1 && rest[i] == cr ensures rest[i + 1] != lf {
        assert rest[i] == text[i + 1] && rest[i + 1] == text[i + 1 + 1];
      }
      DropCrIdentity(rest, lf, cr);
      assert |text| > 1 && text[0] == cr ==> text[0 + 1] != lf;
    }
  }

  lemma DropCrStep<T>(c: T, t: seq<T>, lf: T, cr: T)
    ensures DropCr([c] + t, lf, cr) == (if t != [] && c == cr && t[0] == lf then [] else [c]) + DropCr(t, lf, cr)
  {
    assert ([c] + t)[1..] == t;
  }

  lemma {:induction false} DropCrOfPlain<T>(line: seq<T>, rest: seq<T>, lf: T, cr: T)
    requires lf != cr && lf !in line
    requires rest == [] || rest[0] == lf
    ensures DropCr(line + rest, lf, cr) == (if rest == [] then line else StripCr(line, cr)) + DropCr(rest, lf, cr)
  {
    hide DropCr;
    hide StripCr;
    if line == [] {
      assert line + rest == rest;
      StripCrOfShort(lf, cr);
    } else {
      var c, tail := line[0], line[1..];
      assert line == [c] + tail;
      DropCrOfPlain(tail, rest, lf, cr);
      DropCrOfMore(c, tail, rest, lf, cr);
    }
  }

  lemma StripCrOfShort<T>(c: T, cr: T)
    ensures StripCr<T>([], cr) == [] && StripCr([c], cr) == if c == cr then [] else [c]
  {
  }

  lemma StripCrOfMore<T>(c: T, tail: seq<T>, cr: T)
    requires tail != []
    ensures StripCr([c] + tail, cr) == [c] + StripCr(tail, cr)
  {
    assert ([c] + tail)[..|tail|] == [c] + tail[..|tail| - 1];
  }

  lemma DropCrOfMore<T>(c: T, tail: seq<T>, rest: seq<T>, lf: T, cr: T)
    requires c != lf && lf !in tail && (rest == [] || rest[0] == lf)
    requires DropCr(tail + rest, lf, cr) == (if rest == [] then tail else StripCr(tail, cr)) + DropCr(rest, lf, cr)
    ensures DropCr([c] + tail + rest, lf, cr)
            == (if rest == [] then [c] + tail else StripCr([c] + tail, cr)) + DropCr(rest, lf, cr)
  {
    hide DropCr;
    hide StripCr;
    assert [c] + tail + rest == [c] + (tail + rest);
    DropCrStep(c, tail + rest, lf, cr);
    if tail == [] {
      assert tail + rest == rest && [c] + tail == [c];
      StripCrOfShort(c, cr);
    } else {
      StripCrOfMore(c, tail, cr);
      assert (tail + rest)[0] == tail[0];
    }
  }

  lemma LinesNotEmpty<T>(text: seq<T>, lf: T, cr: T)
    ensures Lines(text, lf, cr) == [] <==> text == []
  {
  }

  lemma {:induction false} UntilLfOf<T>(line: seq<T>, rest: seq<T>, lf: T)
    requires lf !in line && (rest == [] || rest[0] == lf)
    ensures UntilLf(line + rest, lf) == |line|
  {
    if line == [] {
      assert line + rest == rest;
    } else {
      assert (line + rest)[1..] == line[1..] + rest;
      UntilLfOf(line[1..], rest, lf);
    }
  }

  lemma LinesOfFirst<T>(line: seq<T>, next: seq<T>, lf: T, cr: T)
    requires lf !in line
    ensures Lines(line + [lf] + next, lf, cr) == [StripCr(line, cr)] + Lines(next, lf, cr)
  {
    var text := line + [lf] + next;
    assert text == line + ([lf] + next);
    UntilLfOf(line, [lf] + next, lf);
    assert text[..|line|] == line && text[|line| + 1..] == next;
  }

  lemma LinesOfLast<T>(line: seq<T>, lf: T, cr: T)
    requires lf !in line && line != []
    ensures Lines(line, lf, cr) == [line]
  {
    assert line + [] == line;
    UntilLfOf(line, [], lf);
  }

  /** Every text is a line without line feed, or such a line, a line feed, and more text. */
  lemma FirstLine<T>(text: seq<T>, lf: T) returns (line: seq<T>, next: seq<T>)
    ensures lf !in line
    ensures if lf in text then text == line + [lf] + next else text == line
  {
    var n := UntilLf(text, lf);
    line := text[..n];
    next := if n < |text| then text[n + 1..] else [];
    if n == |text| { assert line == text; }
  }

  lemma JoinCons<T>(line: seq<T>, lines: seq<seq<T>>, lf: T)
    requires lines != []
    ensures Join([line] + lines, lf) == line + [lf] + Join(lines, lf)
  {
    assert ([line] + lines)[1..] == lines;
  }

  lemma DropCrOfFirst<T>(line: seq<T>, next: seq<T>, lf: T, cr: T)
    requires lf != cr && lf !in line
    ensures DropCr(line + [lf] + next, lf, cr) == StripCr(line, cr) + [lf] + DropCr(next, lf, cr)
  {
    var rest := [lf] + next;
    assert line + [lf] + next == line + rest;
    DropCrOfPlain(line, rest, lf, cr);
    assert rest[1..] == next;
  }

  lemma TerminatedTail<T>(a: seq<T>, next: seq<T>, lf: T)
    ensures Terminated(a + [lf] + next, lf) <==> next == [] || Terminated(next, lf)
  {
  }

  /** Joining the lines again gives the text back, carriage returns before line feeds aside. */
  lemma {:induction false} JoinOfLines<T>(text: seq<T>, lf: T, cr: T)
    requires lf != cr
    ensures Join(Lines(text, lf, cr), lf) + End(Terminated(text, lf), lf) == DropCr(text, lf, cr)
    decreases |text|
  {
    hide Lines;
    hide UntilLf;
    var line, next := FirstLine(text, lf);
    if lf !in text {
      DropCrIdentity(text, lf, cr);
      if text != [] { LinesOfLast(text, lf, cr); } else { LinesNotEmpty(text, lf, cr); }
    } else {
      DropCrOfFirst(line, next, lf, cr);
      LinesOfFirst(line, next, lf, cr);
      TerminatedTail(line, next, lf);
      JoinOfLines(next, lf, cr);
      LinesNotEmpty(next, lf, cr);
      if next != [] { JoinCons(StripCr(line, cr), Lines(next, lf, cr), lf); }
    }
  }

  lemma {:induction false} JoinSuffix<T>(lines: seq<seq<T>>, start: nat, lf: T) returns (cut: nat)
    requires start < |lines|
    ensures cut <= |Join(lines, lf)| && Join(lines[start..], lf) == Join(lines, lf)[cut..]
  {
    if start == 0 {
      cut := 0;
      assert lines[0..] == lines;
    } else {
      var c := JoinSuffix(lines[1..], start - 1, lf);
      assert lines[1..][start - 1..] == lines[start..];
      cut := |lines[0]| + 1 + c;
      assert Join(lines, lf) == (lines[0] + [lf]) + Join(lines[1..], lf);
    }
  }

  /** Lines to be joined: no line feed inside, and no empty unterminated last line. */
  ghost predicate Joinable<T>(lines: seq<seq<T>>, terminated: bool, lf: T) {
    && (forall l :: l in lines ==> lf !in l)
    && (lines != [] && !terminated ==> Last(lines) != [])
  }

  ghost predicate EndsInCr<T>(line: seq<T>, cr: T) {
    line != [] && Last(line) == cr
  }

  /** No line that a line feed will follow ends in a carriage return. */
  ghost predicate CrFree<T>(lines: seq<seq<T>>, terminated: bool, cr: T) {
    forall k :: 0 <= k < |lines| && (k < |lines| - 1 || terminated) ==> !EndsInCr(lines[k], cr)
  }

  lemma CrFreeStep<T>(line: seq<T>, more: seq<seq<T>>, terminated: bool, cr: T)
    ensures CrFree([line] + more, terminated, cr) <==>
            ((more == [] && !terminated) || !EndsInCr(line, cr)) && CrFree(more, terminated, cr)
  {
    hide EndsInCr;
    var lines := [line] + more;
    if CrFree(lines, terminated, cr) {
      forall k | 0 <= k < |more| && (k < |more| - 1 || terminated) ensures !EndsInCr(more[k], cr) {
        assert lines[k + 1] == more[k];
      }
      assert lines[0] == line;
    }
    if ((more == [] && !terminated) || !EndsInCr(line, cr)) && CrFree(more, terminated, cr) {
      forall k | 0 <= k < |lines| && (k < |lines| - 1 || terminated) ensures !EndsInCr(lines[k], cr) {
        if k > 0 { assert lines[k] == more[k - 1]; }
      }
    }
  }

  /** Splitting joined lines gives them back exactly when none of those that a line feed follows
      ends in a carriage return. */
  lemma {:induction false} LinesOfJoin<T>(lines: seq<seq<T>>, terminated: bool, lf: T, cr: T)
    requires lines != [] && Joinable(lines, terminated, lf)
    ensures Lines(Join(lines, lf) + End(terminated, lf), lf, cr) == lines <==> CrFree(lines, terminated, cr)
    decreases |lines|
  {
    hide Lines;
    hide UntilLf;
    hide CrFree;
    var line, more := lines[0], lines[1..];
    assert lines == [line] + more;
    CrFreeStep(line, more, terminated, cr);
    CrFreeOfNone<T>(terminated, cr);
    if more == [] {
      if terminated {
        LinesNotEmpty<T>([], lf, cr);
        LinesOfFirst(line, [], lf, cr);
        assert line + [lf] + [] == line + End(terminated, lf);
      } else {
        LinesOfLast(line, lf, cr);
        assert line + End(terminated, lf) == line;
      }
    } else {
      var next := Join(more, lf) + End(terminated, lf);
      JoinCons(line, more, lf);
      assert Join(lines, lf) + End(terminated, lf) == line + [lf] + next;
      LinesOfFirst(line, next, lf, cr);
      LinesOfJoin(more, terminated, lf, cr);
      assert ([StripCr(line, cr)] + Lines(next, lf, cr))[1..] == Lines(next, lf, cr);
    }
  }

  lemma CrFreeOfNone<T>(terminated: bool, cr: T)
    ensures CrFree<T>([], terminated, cr)
  {
  }

  /** No line feed has two carriage returns before it. */
  ghost predicate NoCrCrLf<T>(text: seq<T>, lf: T, cr: T) {
    forall i :: 0 <= i < |text| - 2 && text[i] == cr && text[i + 1] == cr ==> text[i + 2] != lf
  }

  lemma NoCrCrLfParts<T>(line: seq<T>, next: seq<T>, lf: T, cr: T)
    requires lf != cr && lf !in line
    ensures NoCrCrLf(line + [lf] + next, lf, cr) <==> !EndsInCr(StripCr(line, cr), cr) && NoCrCrLf(next, lf, cr)
  {
    var text, n := line + [lf] + next, |line|;
    if NoCrCrLf(text, lf, cr) {
      if n >= 2 { assert text[n - 2] == line[n - 2] && text[n - 2 + 1] == line[n - 1] && text[n - 2 + 2] == lf; }
      forall i | 0 <= i < |next| - 2 && next[i] == cr && next[i + 1] == cr ensures next[i + 2] != lf {
        var j := n + 1 + i;
        assert text[j] == next[i] && text[j + 1] == next[i + 1] && text[j + 2] == next[i + 2];
      }
    }
    if !EndsInCr(StripCr(line, cr), cr) && NoCrCrLf(next, lf, cr) {
      assert n >= 2 ==> !(line[n - 2] == cr && line[n - 1] == cr);
      forall i | 0 <= i < |text| - 2 && text[i] == cr && text[i + 1] == cr ensures text[i + 2] != lf {
        if i + 2 < n {
          assert text[i + 2] == line[i + 2];
        } else if i + 2 > n {
          assert text[n] == lf;
          var j := i - n - 1;
          assert next[j] == text[i] && next[j + 1] == text[i + 1] && next[j + 2] == text[i + 2];
        }
      }
    }
  }

  lemma NoCrCrLfOfOne<T>(line: seq<T>, lf: T, cr: T)
    requires lf !in line
    ensures NoCrCrLf(line, lf, cr)
  {
  }

  /** The lines of a text can be joined, and none followed by a line feed ends in a carriage
      return exactly when no line feed of the text has two before it. */
  lemma {:induction false} LinesAreCrFreeIff<T>(text: seq<T>, lf: T, cr: T)
    requires lf != cr
    ensures Joinable(Lines(text, lf, cr), Terminated(text, lf), lf)
    ensures CrFree(Lines(text, lf, cr), Terminated(text, lf), cr) <==> NoCrCrLf(text, lf, cr)
    decreases |text|
  {
    hide Lines;
    hide UntilLf;
    hide CrFree;
    hide NoCrCrLf;
    var line, next := FirstLine(text, lf);
    CrFreeOfNone<T>(Terminated(text, lf), cr);
    if lf !in text {
      NoCrCrLfOfOne(text, lf, cr);
      if text != [] {
        LinesOfLast(text, lf, cr);
        CrFreeStep(text, [], Terminated(text, lf), cr);
        assert [text] + [] == [text];
      } else {
        LinesNotEmpty(text, lf, cr);
      }
    } else {
      LinesOfFirst(line, next, lf, cr);
      TerminatedTail(line, next, lf);
      LinesAreCrFreeIff(next, lf, cr);
      LinesNotEmpty(next, lf, cr);
      NoCrCrLfParts(line, next, lf, cr);
      CrFreeStep(StripCr(line, cr), Lines(next, lf, cr), Terminated(text, lf), cr);
      CrFreeOfNone<T>(Terminated(next, lf), cr);
    }
  }

  /** Text that ends with a line feed can be split on its own. */
  lemma {:induction false} LinesOfConcat<T>(a: seq<T>, b: seq<T>, lf: T, cr: T)
    requires a == [] || Terminated(a, lf)
    ensures Lines(a + b, lf, cr) == Lines(a, lf, cr) + Lines(b, lf, cr)
    decreases |a|
  {
    hide Lines;
    hide UntilLf;
    if a == [] {
      LinesNotEmpty(a, lf, cr);
      assert a + b == b;
    } else {
      var line, next := FirstLine(a, lf);
      assert Last(a) in a;
      assert a + b == line + [lf] + (next + b);
      LinesOfFirst(line, next, lf, cr);
      LinesOfFirst(line, next + b, lf, cr);
      TerminatedTail(line, next, lf);
      LinesOfConcat(next, b, lf, cr);
      var first := [StripCr(line, cr)];
      assert first + (Lines(next, lf, cr) + Lines(b, lf, cr)) == (first + Lines(next, lf, cr)) + Lines(b, lf, cr);
    }
  }

  // ------------------------------------------------------------ from one line on

  /** The text from line k on, carriage returns included. */
  function FromLine<T(==)>(text: seq<T>, k: nat, lf: T): (r: seq<T>)
    decreases k
  {
    if k == 0 || text == [] then text
    else
      var n := UntilLf(text, lf);
      if n == |text| then [] else FromLine(text[n + 1..], k - 1, lf)
  }

  lemma {:induction false} LinesFrom<T>(text: seq<T>, k: nat, lf: T, cr: T)
    requires k <= |Lines(text, lf, cr)|
    ensures Lines(FromLine(text, k, lf), lf, cr) == Lines(text, lf, cr)[k..]
    decreases k
  {
    hide Lines;
    if k > 0 {
      var n := UntilLf(text, lf);
      FirstLineFrom(text, lf, cr);
      if n < |text| {
        LinesFrom(text[n + 1..], k - 1, lf, cr);
        assert Lines(text, lf, cr)[1..][k - 1..] == Lines(text, lf, cr)[k..];
      } else if text != [] {
        LinesNotEmpty<T>([], lf, cr);
        assert k == 1;
      }
    }
  }

  lemma FirstLineFrom<T>(text: seq<T>, lf: T, cr: T)
    ensures var n, lines := UntilLf(text, lf), Lines(text, lf, cr);
            if text == [] then lines == []
            else if n == |text| then lines == [text]
            else lines != [] && lines[1..] == Lines(text[n + 1..], lf, cr)
  {
    hide UntilLf;
  }

  lemma {:induction false} FromLineIsSuffix<T>(text: seq<T>, k: nat, lf: T) returns (cut: nat)
    ensures cut <= |text| && FromLine(text, k, lf) == text[cut..]
    ensures FromLine(text, k, lf) != [] ==> (Terminated(FromLine(text, k, lf), lf) <==> Terminated(text, lf))
    decreases k
  {
    hide UntilLf;
    if k == 0 || text == [] {
      cut := 0;
    } else {
      var n := UntilLf(text, lf);
      if n == |text| {
        cut := |text|;
      } else {
        var c := FromLineIsSuffix(text[n + 1..], k - 1, lf);
        cut := n + 1 + c;
        assert text[n + 1..][c..] == text[cut..];
      }
    }
  }

  // ------------------------------------------------------------ dropping carriage returns

  lemma NoCrLfStep<T>(c: T, t: seq<T>, lf: T, cr: T)
    ensures NoCrLf([c] + t, lf, cr) <==> NoCrLf(t, lf, cr) && !(c == cr && t != [] && t[0] == lf)
  {
    var s := [c] + t;
    if NoCrLf(t, lf, cr) && !(c == cr && t != [] && t[0] == lf) {
      forall i | 0 <= i < |s| - 1 && s[i] == cr ensures s[i + 1] != lf {
        if i > 0 { assert s[i] == t[i - 1] && s[i + 1] == t[i - 1 + 1]; }
      }
    }
    if NoCrLf(s, lf, cr) {
      forall i | 0 <= i < |t| - 1 && t[i] == cr ensures t[i + 1] != lf {
        assert s[i + 1] == t[i] && s[i + 1 + 1] == t[i + 1];
      }
      if t != [] { assert s[0] == cr ==> s[0 + 1] != lf; }
    }
  }

  /** Dropping shortens a text exactly when it has a CR LF pair. */
  lemma {:induction false} DropCrIff<T>(text: seq<T>, lf: T, cr: T)
    ensures |DropCr(text, lf, cr)| <= |text|
    ensures DropCr(text, lf, cr) == text <==> NoCrLf(text, lf, cr)
    ensures |DropCr(text, lf, cr)| == |text| <==> NoCrLf(text, lf, cr)
  {
    if text == [] {
    } else {
      var c, t := text[0], text[1..];
      assert text == [c] + t;
      DropCrIff(t, lf, cr);
      DropCrStep(c, t, lf, cr);
      NoCrLfStep(c, t, lf, cr);
    }
  }

  /** The one CR LF pair of a text, at k, has nothing but carriage returns before it. */
  ghost predicate OnlyPairAfterCrs<T>(text: seq<T>, k: nat, lf: T, cr: T) {
    && k + 1 < |text| && text[k + 1] == lf
    && (forall i :: 0 <= i <= k ==> text[i] == cr)
    && NoCrLf(text[k + 1..], lf, cr)
  }

  /** Dropping leaves a suffix exactly when there is no CR LF pair, or one with nothing but
      carriage returns before it. */
  ghost predicate DropLeavesSuffix<T>(text: seq<T>, lf: T, cr: T) {
    NoCrLf(text, lf, cr) || exists k: nat :: OnlyPairAfterCrs(text, k, lf, cr)
  }

  lemma OnlyPairStep<T>(c: T, t: seq<T>, lf: T, cr: T)
    requires lf != cr && !NoCrLf([c] + t, lf, cr)
    ensures (exists k: nat :: OnlyPairAfterCrs([c] + t, k, lf, cr)) <==>
            if c == cr && t != [] && t[0] == lf then NoCrLf(t, lf, cr)
            else c == cr && exists k: nat :: OnlyPairAfterCrs(t, k, lf, cr)
  {
    hide OnlyPairAfterCrs;
    hide NoCrLf;
    var s := [c] + t;
    OnlyPairFirst(c, t, lf, cr);
    if k: nat :| OnlyPairAfterCrs(s, k, lf, cr) {
      OnlyPairAt(s, k, lf, cr);
      if k > 0 {
        OnlyPairLater(c, t, k - 1, lf, cr);
        OnlyPairAt(t, k - 1, lf, cr);
      }
    }
    if c == cr && t != [] && t[0] == lf {
    } else if c == cr {
      if k: nat :| OnlyPairAfterCrs(t, k, lf, cr) { OnlyPairLater(c, t, k, lf, cr); }
    }
  }

  lemma OnlyPairAt<T>(text: seq<T>, k: nat, lf: T, cr: T)
    requires OnlyPairAfterCrs(text, k, lf, cr)
    ensures text != [] && text[0] == cr
  {
  }

  lemma OnlyPairFirst<T>(c: T, t: seq<T>, lf: T, cr: T)
    ensures OnlyPairAfterCrs([c] + t, 0, lf, cr) <==> c == cr && t != [] && t[0] == lf && NoCrLf(t, lf, cr)
  {
    hide NoCrLf;
    var s := [c] + t;
    assert s[0 + 1..] == t && s[0] == c;
    if t != [] { assert s[0 + 1] == t[0]; }
  }

  lemma OnlyPairLater<T>(c: T, t: seq<T>, k: nat, lf: T, cr: T)
    ensures OnlyPairAfterCrs([c] + t, k + 1, lf, cr) <==> c == cr && OnlyPairAfterCrs(t, k, lf, cr)
  {
    hide NoCrLf;
    var s := [c] + t;
    if k + 1 < |t| {
      assert s[k + 1 + 1..] == t[k + 1..] && s[k + 1 + 1] == t[k + 1] && s[0] == c;
      assert forall i :: 0 <= i <= k ==> t[i] == s[i + 1];
      assert forall i :: 0 < i <= k + 1 ==> s[i] == t[i - 1];
    }
  }

  lemma {:induction false} OnePairDropsOne<T>(text: seq<T>, k: nat, lf: T, cr: T)
    requires lf != cr && OnlyPairAfterCrs(text, k, lf, cr)
    ensures |DropCr(text, lf, cr)| == |text| - 1
  {
    var c, t := text[0], text[1..];
    assert text == [c] + t;
    DropCrStep(c, t, lf, cr);
    if k == 0 {
      DropCrIff(t, lf, cr);
    } else {
      assert t[0] == cr && t[k..] == text[k + 1..] && t[k] == text[k + 1];
      assert forall i :: 0 <= i <= k - 1 ==> t[i] == text[i + 1];
      OnePairDropsOne(t, k - 1, lf, cr);
    }
  }

  /** The suffix of the length that dropping leaves. */
  function Rest<T>(text: seq<T>, n: nat): seq<T> {
    if n <= |text| then text[|text| - n..] else text
  }

  lemma {:induction false} DropLeavesSuffixIff<T>(text: seq<T>, lf: T, cr: T)
    requires lf != cr
    ensures DropCr(text, lf, cr) == Rest(text, |DropCr(text, lf, cr)|) <==> DropLeavesSuffix(text, lf, cr)
  {
    hide DropCr;
    DropCrIff(text, lf, cr);
    if !NoCrLf(text, lf, cr) {
      var c, t := text[0], text[1..];
      assert text == [c] + t;
      DropCrStep(c, t, lf, cr);
      OnlyPairStep(c, t, lf, cr);
      NoCrLfStep(c, t, lf, cr);
      DropCrIff(t, lf, cr);
      DropLeavesSuffixIff(t, lf, cr);
      var n := |DropCr(t, lf, cr)|;
      if c == cr && t != [] && t[0] == lf {
        assert Rest(text, n) == Rest(t, n);
      } else {
        KeptHead(c, t, n, DropCr(t, lf, cr));
        if k: nat :| OnlyPairAfterCrs(t, k, lf, cr) {
          OnePairDropsOne(t, k, lf, cr);
          assert t[0] == cr;
        }
      }
    }
  }

  lemma KeptHead<T>(c: T, t: seq<T>, n: nat, kept: seq<T>)
    requires n < |t| && |kept| == n
    ensures [c] + kept == Rest([c] + t, n + 1) <==> kept == Rest(t, n) && c == t[|t| - n - 1]
  {
    var text := [c] + t;
    assert Rest(text, n + 1) == [t[|t| - n - 1]] + Rest(t, n);
    assert ([c] + kept)[1..] == kept && ([c] + kept)[0] == c;
    assert Rest(text, n + 1)[1..] == Rest(t, n);
  }
}

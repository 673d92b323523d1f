/** The string operations of the source that trim, search and split. */
module Text {
  import opened Basics

  /** The Unicode White_Space property, which str::trim and char::is_whitespace use. */
  predicate IsSpace(c: char) {
    || '\U{9}' <= c <= '\U{D}'
    || c == ' ' || c == '\U{85}' || c == '\U{A0}' || c == '\U{1680}'
    || '\U{2000}' <= c <= '\U{200A}'
    || c == '\U{2028}' || c == '\U{2029}' || c == '\U{202F}' || c == '\U{205F}' || c == '\U{3000}'
  }

  function TrimStart(s: string): (r: string)
    ensures r == [] || !IsSpace(r[0])
    ensures |r| <= |s| && r == s[|s| - |r|..]
  {
    if s != [] && IsSpace(s[0]) then TrimStart(s[1..]) else s
  }

  function TrimEnd(s: string): (r: string)
    ensures r == [] || !IsSpace(Last(r))
    ensures r <= s
  {
    if s != [] && IsSpace(Last(s)) then TrimEnd(s[..|s| - 1]) else s
  }

  function Trim(s: string): string {
    TrimEnd(TrimStart(s))
  }

  /** No white space at either end. */
  predicate Trimmed(s: string) {
    s != [] ==> !IsSpace(s[0]) && !IsSpace(Last(s))
  }

  lemma TrimIsTrimmed(s: string)
    ensures Trimmed(Trim(s))
  {
    var t := TrimStart(s);
    assert TrimEnd(t) != [] ==> TrimEnd(t)[0] == t[0];
  }

  lemma TrimFixpoint(s: string)
    ensures Trimmed(s) <==> Trim(s) == s
  {
    TrimIsTrimmed(s);
  }

  function StripPrefix(s: string, prefix: string): (r: Option<string>)
    ensures r.Some? ==> s == prefix + r.value
  {
    if prefix <= s then Some(s[|prefix|..]) else None
  }

  predicate EndsWith(s: string, suffix: string) {
    |suffix| <= |s| && s[|s| - |suffix|..] == suffix
  }

  /** The length of the longest prefix without a stop character. */
  function Span(s: string, stop: char -> bool): (n: nat)
    ensures n <= |s|
    ensures forall k :: 0 <= k < n ==> !stop(s[k])
    ensures n < |s| ==> stop(s[n])
  {
    if s == [] || stop(s[0]) then 0 else 1 + Span(s[1..], stop)
  }

  lemma {:induction false} SpanStopsAt(head: string, rest: string, stop: char -> bool)
    requires forall k :: 0 <= k < |head| ==> !stop(head[k])
    requires rest != "" ==> stop(rest[0])
    ensures Span(head + rest, stop) == |head|
  {
    if head == "" {
      assert head + rest == rest;
    } else {
      assert (head + rest)[1..] == head[1..] + rest;
      SpanStopsAt(head[1..], rest, stop);
    }
  }

  function Lower(c: char): char {
    if 'A' <= c <= 'Z' then c - 'A' + 'a' else c
  }

  function ToAsciiLowercase(s: string): (r: string)
    ensures |r| == |s|
    ensures forall k :: 0 <= k < |s| ==> r[k] == Lower(s[k])
  {
    seq(|s|, k requires 0 <= k < |s| => Lower(s[k]))
  }

  /** The same character, or the two cases of one ASCII letter. */
  predicate SameLetter(a: char, b: char) {
    a == b || ('A' <= a <= 'Z' && b as int == a as int + 32) || ('A' <= b <= 'Z' && a as int == b as int + 32)
  }

  ghost predicate SameIgnoringCase(a: string, b: string) {
    |a| == |b| && forall k :: 0 <= k < |a| ==> SameLetter(a[k], b[k])
  }

  lemma LowerIff(a: char, b: char)
    ensures Lower(a) == Lower(b) <==> SameLetter(a, b)
  {
  }

  /** Two texts have the same lower case exactly when they differ in the case of letters only. */
  lemma LowercaseIff(a: string, b: string)
    ensures ToAsciiLowercase(a) == ToAsciiLowercase(b) <==> SameIgnoringCase(a, b)
  {
    hide SameLetter;
    hide Lower;
    if ToAsciiLowercase(a) == ToAsciiLowercase(b) {
      forall k | 0 <= k < |a| ensures SameLetter(a[k], b[k]) {
        assert ToAsciiLowercase(a)[k] == ToAsciiLowercase(b)[k];
        LowerIff(a[k], b[k]);
      }
    }
    if SameIgnoringCase(a, b) {
      forall k | 0 <= k < |a| ensures Lower(a[k]) == Lower(b[k]) { LowerIff(a[k], b[k]); }
    }
  }

  ghost predicate Blank(s: string) {
    forall k :: 0 <= k < |s| ==> IsSpace(s[k])
  }

  lemma {:induction false} TrimStartDrops(s: string)
    ensures Blank(s[..|s| - |TrimStart(s)|])
  {
    hide IsSpace;
    if s != "" && IsSpace(s[0]) {
      TrimStartDrops(s[1..]);
      var n := |s| - |TrimStart(s)|;
      assert s[..n] == [s[0]] + s[1..][..n - 1];
    }
  }

  lemma {:induction false} TrimEndDrops(s: string)
    ensures Blank(s[|TrimEnd(s)|..])
  {
    hide IsSpace;
    if s != "" && IsSpace(Last(s)) {
      var front := s[..|s| - 1];
      TrimEndDrops(front);
      assert s[|TrimEnd(s)|..] == front[|TrimEnd(s)|..] + [Last(s)];
    }
  }

  lemma {:induction false} TrimStartOf(before: string, rest: string)
    requires Blank(before) && (rest == "" || !IsSpace(rest[0]))
    ensures TrimStart(before + rest) == rest
  {
    hide IsSpace;
    if before == "" {
      assert before + rest == rest;
    } else {
      assert (before + rest)[1..] == before[1..] + rest;
      TrimStartOf(before[1..], rest);
    }
  }

  lemma {:induction false} TrimEndOf(rest: string, after: string)
    requires Blank(after) && (rest == "" || !IsSpace(Last(rest)))
    ensures TrimEnd(rest + after) == rest
  {
    hide IsSpace;
    if after == "" {
      assert rest + after == rest;
    } else {
      assert (rest + after)[..|rest + after| - 1] == rest + after[..|after| - 1];
      TrimEndOf(rest, after[..|after| - 1]);
    }
  }

  /** s is r between white space. */
  ghost predicate Surrounds(s: string, r: string) {
    exists before, after :: Blank(before) && Blank(after) && s == before + r + after
  }

  /** Trimming takes away the white space at both ends and nothing else. */
  lemma TrimIff(s: string, r: string)
    ensures Trim(s) == r <==> Trimmed(r) && Surrounds(s, r)
  {
    hide IsSpace;
    hide TrimStart;
    hide TrimEnd;
    hide Blank;
    TrimIsTrimmed(s);
    TrimStartDrops(s);
    TrimEndDrops(TrimStart(s));
    var before, after := s[..|s| - |TrimStart(s)|], TrimStart(s)[|Trim(s)|..];
    assert s == before + Trim(s) + after;
    if Trimmed(r) && Surrounds(s, r) {
      var b, a :| Blank(b) && Blank(a) && s == b + r + a;
      TrimOf(b, r, a);
    }
  }

  lemma TrimOf(before: string, r: string, after: string)
    requires Blank(before) && Blank(after) && Trimmed(r)
    ensures Trim(before + r + after) == r
  {
    hide IsSpace;
    hide TrimStart;
    hide TrimEnd;
    if r == "" {
      assert before + r + after == (before + after) + "";
      TrimStartOf(before + after, "");
      TrimEndOf("", "");
      assert "" + "" == "";
    } else {
      assert before + r + after == before + (r + after);
      TrimStartOf(before, r + after);
      TrimEndOf(r, after);
    }
  }
}

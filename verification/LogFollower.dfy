/** Tailing and following a log file that others write to (rt-cli lib.rs). What the file
    shows at each look is an input; the program's output is the result. */
module LogFollower {
  import opened Basics
  import opened LineSplit

  newtype byte = x: int | 0 <= x < 256

  const LF: byte := 10
  const CR: byte := 13

  type Bytes = seq<byte>

  // ------------------------------------------------------------ the tail

  function LastN<T>(s: seq<T>, n: nat): seq<T> {
    if |s| <= n then s else s[|s| - n..]
  }

  function LastNLines(text: Bytes, n: nat): Bytes {
    var out := Join(LastN(Lines(text, LF, CR), n), LF);
    if Terminated(text, LF) && out != [] then out + [LF] else out
  }

  ghost predicate IsSuffix(s: Bytes, t: Bytes) {
    exists cut :: 0 <= cut <= |t| && s == t[cut..]
  }

  /** Whatever the text, the tail is a suffix of it with CR LF read as LF. */
  lemma TailIsSuffix(text: Bytes, n: nat)
    ensures IsSuffix(LastNLines(text, n), DropCr(text, LF, CR))
  {
    hide Lines;
    hide DropCr;
    var lines, plain := Lines(text, LF, CR), DropCr(text, LF, CR);
    JoinOfLines(text, LF, CR);
    var out := LastNLines(text, n);
    if out == [] {
      assert out == plain[|plain|..];
    } else {
      var cut := JoinSuffix(lines, |lines| - |LastN(lines, n)|, LF);
      assert LastN(lines, n) == lines[|lines| - |LastN(lines, n)|..];
      assert out == plain[cut..];
    }
  }

  function Chosen(text: Bytes, n: nat): seq<Bytes> {
    LastN(Lines(text, LF, CR), n)
  }

  /** The text from the first chosen line on. */
  function Region(text: Bytes, n: nat): Bytes {
    FromLine(text, |Lines(text, LF, CR)| - |Chosen(text, n)|, LF)
  }

  /** The tail is that region with CR LF read as LF; only a single empty line is lost. */
  lemma TailIsRegion(text: Bytes, n: nat)
    ensures LastNLines(text, n) == if Chosen(text, n) == [[]] then [] else DropCr(Region(text, n), LF, CR)
  {
    hide Lines;
    hide FromLine;
    var lines, chosen, region := Lines(text, LF, CR), Chosen(text, n), Region(text, n);
    var start := |lines| - |chosen|;
    assert chosen == lines[start..];
    LinesFrom(text, start, LF, CR);
    JoinOfLines(region, LF, CR);
    LinesNotEmpty(region, LF, CR);
    var cut := FromLineIsSuffix(text, start, LF);
    if chosen != [] && chosen != [[]] { JoinOfSeveral(chosen, LF); }
  }

  /** The tail is the text from the first chosen line on exactly when that holds no CR LF pair
      and is not a single empty line. */
  lemma TailIsRegionIff(text: Bytes, n: nat)
    ensures LastNLines(text, n) == Region(text, n)
            <==> Chosen(text, n) != [[]] && NoCrLf(Region(text, n), LF, CR)
  {
    hide LastNLines;
    hide DropCr;
    hide FromLine;
    hide Lines;
    TailIsRegion(text, n);
    DropCrIff(Region(text, n), LF, CR);
    if Chosen(text, n) == [[]] {
      LinesFrom(text, |Lines(text, LF, CR)| - 1, LF, CR);
      LinesNotEmpty(Region(text, n), LF, CR);
    }
  }

  /** The tail is a suffix of the text exactly when the text from the first chosen line on is a
      single empty line, or holds no CR LF pair, or one with only carriage returns before it. */
  lemma TailIsSuffixIff(text: Bytes, n: nat)
    ensures IsSuffix(LastNLines(text, n), text)
            <==> Chosen(text, n) == [[]] || DropLeavesSuffix(Region(text, n), LF, CR)
  {
    hide LastNLines;
    hide DropCr;
    hide FromLine;
    hide Lines;
    hide DropLeavesSuffix;
    TailIsRegion(text, n);
    var region := Region(text, n);
    if Chosen(text, n) == [[]] {
      assert text[|text|..] == [];
    } else {
      var cut := FromLineIsSuffix(text, |Lines(text, LF, CR)| - |Chosen(text, n)|, LF);
      DropCrIff(region, LF, CR);
      DropLeavesSuffixIff(region, LF, CR);
      SuffixOfSuffix(DropCr(region, LF, CR), text, cut);
    }
  }

  lemma SuffixOfSuffix(s: Bytes, text: Bytes, cut: nat)
    requires cut <= |text| && |s| <= |text| - cut
    ensures IsSuffix(s, text) <==> s == Rest(text[cut..], |s|)
  {
    assert text[|text| - |s|..] == Rest(text[cut..], |s|);
    if i :| 0 <= i <= |text| && s == text[i..] { assert i == |text| - |s|; }
  }

  /** Chosen are the last n lines, or all if there are fewer. */
  lemma ChosenAreLast(text: Bytes, n: nat, k: nat)
    requires k < n && k < |Lines(text, LF, CR)|
    ensures var lines, chosen := Lines(text, LF, CR), Chosen(text, n);
            && |chosen| == (if n < |lines| then n else |lines|)
            && chosen[|chosen| - 1 - k] == lines[|lines| - 1 - k]
  {
    hide Lines;
  }

  /** The lines of the tail are the last n of the text, or all if there are fewer, exactly when no
      line feed from the first chosen line on has two carriage returns before it; and a single
      empty line is lost. */
  lemma TailIsLastLines(text: Bytes, n: nat)
    ensures Lines(LastNLines(text, n), LF, CR) == Chosen(text, n)
            <==> Chosen(text, n) != [[]] && NoCrCrLf(Region(text, n), LF, CR)
  {
    hide Lines;
    hide FromLine;
    hide CrFree;
    hide NoCrCrLf;
    hide Joinable;
    var lines, chosen, region := Lines(text, LF, CR), Chosen(text, n), Region(text, n);
    var start := |lines| - |chosen|;
    assert chosen == lines[start..];
    LinesFrom(text, start, LF, CR);
    LinesAreCrFreeIff(region, LF, CR);
    var cut := FromLineIsSuffix(text, start, LF);
    LinesNotEmpty(region, LF, CR);
    LinesNotEmpty<byte>([], LF, CR);
    if chosen == [] {
      NoCrCrLfOfOne(region, LF, CR);
    } else if chosen == [[]] {
      assert LastNLines(text, n) == [];
    } else {
      JoinOfSeveral(chosen, LF);
      LinesOfJoin(chosen, Terminated(text, LF), LF, CR);
      assert LastNLines(text, n) == Join(chosen, LF) + End(Terminated(text, LF), LF);
    }
  }

  /** A text whose tail shows another line than the text has. */
  lemma CrCrLfTailDiffers()
    ensures var text: Bytes := [97, CR, CR, LF];
            Chosen(text, 1) == [[97, CR]] && Lines(LastNLines(text, 1), LF, CR) == [[97]]
  {
    hide Lines;
    hide UntilLf;
    var text: Bytes := [97, CR, CR, LF];
    LinesNotEmpty<byte>([], LF, CR);
    LinesOfFirst([97, CR, CR], [], LF, CR);
    assert text == [97, CR, CR] + [LF] + [];
    assert StripCr([97, CR, CR], CR) == [97, CR];
    var tail: Bytes := [97, CR, LF];
    assert LastNLines(text, 1) == tail;
    LinesOfFirst([97, CR], [], LF, CR);
    assert tail == [97, CR] + [LF] + [];
    assert StripCr([97, CR], CR) == [97];
  }

  lemma JoinOfSeveral(lines: seq<Bytes>, lf: byte)
    requires lines != [] && lines != [[]]
    ensures Join(lines, lf) != []
  {
    if |lines| == 1 { assert lines == [lines[0]]; }
  }

  /** A text whose tail is no suffix of it. */
  lemma CrLfTailIsNoSuffix()
    ensures var text: Bytes := [97, CR, LF]; LastNLines(text, 1) == [97, LF] && !IsSuffix(LastNLines(text, 1), text)
  {
    var text: Bytes := [97, CR, LF];
    LinesOfFirst([97, CR], [], LF, CR);
    assert text == [97, CR] + [LF] + [];
    assert StripCr([97, CR], CR) == [97];
    assert Lines(text, LF, CR) == [[97]];
    forall cut | 0 <= cut <= |text| ensures text[cut..] != [97, LF] {
      assert cut == 1 ==> text[cut..][0] == CR;
    }
  }

  // ------------------------------------------------------------ the follower

  /** Reading the whole file as text. */
  datatype Read = Contents(text: Bytes) | Absent | Unreadable

  /** One look at the file: its length when asked, and its bytes when read a moment later. */
  datatype Poll = Seen(len: nat, bytes: Bytes) | Missing | Broken

  /** What the follower meets: whether the file exists, look by look, until stopped; the first
      read; then one poll at a time until stopped. */
  datatype World = World(exists_: seq<bool>, first: Read, polls: seq<Poll>)

  /** Output so far, bytes of the file consumed, and whether an error ended it. */
  datatype Tail = Tail(out: Bytes, offset: nat, failed: bool)

  /** How many lines the follower shows at first: as many as asked, but at least 1 and at most 10000. */
  function ClampLines(lines: nat): (n: nat)
    ensures 1 <= n <= 10000 && (lines < n ==> n == 1) && (lines > n ==> n == 10000)
  {
    if lines < 1 then 1 else if lines > 10000 then 10000 else lines
  }

  function ReadFromOffset(len: nat, bytes: Bytes, offset: nat): (r: (Bytes, nat)) {
    var start := if len < offset then 0 else offset;
    var buf := if start <= |bytes| then bytes[start..] else [];
    (buf, start + |buf|)
  }

  function PollOnce(t: Tail, p: Poll): Tail {
    if t.failed then t
    else
      match p
      case Seen(len, bytes) =>
        var (buf, next) := ReadFromOffset(len, bytes, t.offset);
        Tail(t.out + buf, next, false)
      case Missing => t.(offset := 0)
      case Broken => t.(failed := true)
  }

  function PollAll(t: Tail, polls: seq<Poll>): Tail {
    if polls == [] then t else PollOnce(PollAll(t, polls[..|polls| - 1]), Last(polls))
  }

  function Started(first: Read, lines: nat): Tail {
    match first
    case Contents(text) => Tail(LastNLines(text, ClampLines(lines)), |text|, false)
    case Absent => Tail([], 0, false)
    case Unreadable => Tail([], 0, true)
  }

  function Followed(world: World, lines: nat): Tail {
    if true in world.exists_ then PollAll(Started(world.first, lines), world.polls) else Tail([], 0, false)
  }

  method FollowLogTo(world: World, lines: nat) returns (out: Bytes, failed: bool)
    ensures out == Followed(world, lines).out && failed == Followed(world, lines).failed
  {
    hide LastNLines;
    out, failed := [], false;
    var i := 0;
    while i < |world.exists_| && !world.exists_[i]
      invariant i <= |world.exists_| && true !in world.exists_[..i]
    {
      i := i + 1;
    }
    if i == |world.exists_| {
      assert world.exists_[..i] == world.exists_;
      return;
    }
    var offset: nat := 0;
    match world.first {
      case Contents(text) => out, offset := LastNLines(text, ClampLines(lines)), |text|;
      case Absent =>
      case Unreadable => failed := true;
    }
    for k := 0 to |world.polls|
      invariant Tail(out, offset, failed) == PollAll(Started(world.first, lines), world.polls[..k])
    {
      assert world.polls[..k + 1][..k] == world.polls[..k];
      if !failed {
        match world.polls[k] {
          case Seen(len, bytes) =>
            var (buf, next) := ReadFromOffset(len, bytes, offset);
            out, offset := out + buf, next;
          case Missing => offset := 0;
          case Broken => failed := true;
        }
      }
    }
    assert world.polls[..|world.polls|] == world.polls;
  }

  /** Following fails exactly when the first read or some poll does. */
  lemma {:induction false} PollsFailIff(t: Tail, polls: seq<Poll>)
    ensures PollAll(t, polls).failed <==> t.failed || Broken in polls
  {
    if polls != [] {
      PollsFailIff(t, polls[..|polls| - 1]);
      assert polls == polls[..|polls| - 1] + [Last(polls)];
    }
  }

  lemma FailsIff(world: World, lines: nat)
    ensures Followed(world, lines).failed
            <==> true in world.exists_ && (world.first == Unreadable || Broken in world.polls)
  {
    hide LastNLines;
    PollsFailIff(Started(world.first, lines), world.polls);
  }

  /** After a failure nothing more is written. */
  lemma {:induction false} FailureEnds(t: Tail, before: seq<Poll>, after: seq<Poll>)
    ensures PollAll(t, before + [Broken] + after).out == PollAll(t, before).out
  {
    var polls := before + [Broken] + after;
    if after == [] {
      assert polls[..|polls| - 1] == before;
    } else {
      assert polls[..|polls| - 1] == before + [Broken] + after[..|after| - 1];
      FailureEnds(t, before, after[..|after| - 1]);
      assert Broken in polls[..|polls| - 1] by { assert (before + [Broken])[|before|] == Broken; }
      PollsFailIff(t, polls[..|polls| - 1]);
    }
  }

  /** The file only grows from prev on, also between asking its length and reading it. */
  ghost predicate Grows(prev: Bytes, polls: seq<Poll>)
    decreases |polls|
  {
    polls != [] ==>
      && polls[0].Seen?
      && |prev| <= polls[0].len <= |polls[0].bytes|
      && prev <= polls[0].bytes
      && Grows(polls[0].bytes, polls[1..])
  }

  ghost function Final(prev: Bytes, polls: seq<Poll>): Bytes
    requires Grows(prev, polls)
    decreases |polls|
  {
    if polls == [] then prev else Final(polls[0].bytes, polls[1..])
  }

  lemma {:induction false} PollAllHead(t: Tail, p: Poll, polls: seq<Poll>)
    ensures PollAll(t, [p] + polls) == PollAll(PollOnce(t, p), polls)
  {
    if polls == [] {
      assert [p] + polls == [p];
      assert PollAll(t, [p][..0]) == t;
    } else {
      assert ([p] + polls)[..|polls|] == [p] + polls[..|polls| - 1];
      PollAllHead(t, p, polls[..|polls| - 1]);
    }
  }

  /** What was added to the file after prev. */
  ghost function Appended(prev: Bytes, polls: seq<Poll>): Bytes
    requires Grows(prev, polls)
    decreases |polls|
  {
    if polls == [] then [] else polls[0].bytes[|prev|..] + Appended(polls[0].bytes, polls[1..])
  }

  lemma {:induction false} FinalIsAppended(prev: Bytes, polls: seq<Poll>)
    requires Grows(prev, polls)
    ensures Final(prev, polls) == prev + Appended(prev, polls)
    decreases |polls|
  {
    if polls != [] {
      var bytes, more := polls[0].bytes, polls[1..];
      FinalIsAppended(bytes, more);
      var step := bytes[|prev|..];
      assert bytes == prev + step;
      ConcatAssociates(prev, step, Appended(bytes, more));
    }
  }

  lemma PollOfGrownFile(t: Tail, len: nat, bytes: Bytes)
    requires !t.failed && t.offset <= len <= |bytes|
    ensures PollOnce(t, Seen(len, bytes)) == Tail(t.out + bytes[t.offset..], |bytes|, false)
  {
  }

  /** While the file only grows, the output grows by exactly the bytes appended, and the
      offset is the number of bytes consumed: nothing is lost and nothing repeated. */
  lemma {:induction false} FollowingLosesNothing(t: Tail, prev: Bytes, polls: seq<Poll>)
    requires !t.failed && t.offset == |prev| && Grows(prev, polls)
    ensures PollAll(t, polls) == Tail(t.out + Appended(prev, polls), |prev| + |Appended(prev, polls)|, false)
    decreases |polls|
  {
    hide PollOnce;
    if polls == [] {
      assert t.out + [] == t.out;
    } else {
      var p, more := polls[0], polls[1..];
      var bytes := p.bytes;
      assert polls == [p] + more;
      PollAllHead(t, p, more);
      PollOfGrownFile(t, p.len, bytes);
      var step := bytes[|prev|..];
      FollowingLosesNothing(Tail(t.out + step, |bytes|, false), bytes, more);
      ConcatAssociates(t.out, step, Appended(bytes, more));
    }
  }

  /** The whole run on an append-only log: the initial tail, then every appended byte once. The
      output is a suffix of the final log exactly when the tail was one of the first read. */
  lemma FollowerShowsTheLog(world: World, lines: nat)
    requires true in world.exists_ && world.first.Contents? && Grows(world.first.text, world.polls)
    ensures var text, final, n := world.first.text, Final(world.first.text, world.polls), ClampLines(lines);
            && text <= final
            && Followed(world, lines) == Tail(LastNLines(text, n) + final[|text|..], |final|, false)
            && (IsSuffix(Followed(world, lines).out, final) <==>
                Chosen(text, n) == [[]] || DropLeavesSuffix(Region(text, n), LF, CR))
  {
    hide LastNLines;
    hide Chosen;
    hide Region;
    hide DropLeavesSuffix;
    hide IsSuffix;
    var text, final := world.first.text, Final(world.first.text, world.polls);
    FollowingLosesNothing(Started(world.first, lines), text, world.polls);
    FinalIsAppended(text, world.polls);
    assert final[|text|..] == Appended(text, world.polls);
    TailIsSuffixIff(text, ClampLines(lines));
    SuffixGrows(LastNLines(text, ClampLines(lines)), text, final);
  }

  lemma SuffixGrows(tail: Bytes, text: Bytes, final: Bytes)
    requires text <= final
    ensures IsSuffix(tail + final[|text|..], final) <==> IsSuffix(tail, text)
  {
    var added := final[|text|..];
    assert final == text + added;
    if cut :| 0 <= cut <= |text| && tail == text[cut..] { assert tail + added == final[cut..]; }
    if cut :| 0 <= cut <= |final| && tail + added == final[cut..] {
      assert |final| - cut == |tail| + |added|;
      assert tail == (tail + added)[..|tail|] == final[cut..][..|tail|] == text[cut..];
    }
  }

  /** After a poll that finds the file shorter than what was consumed, or missing, the new
      file is shown from its first byte, and again nothing is lost. */
  lemma RestartShowsWholeFile(t: Tail, p: Poll, prev: Bytes, polls: seq<Poll>)
    requires !t.failed
    requires || (p.Seen? && p.len < t.offset && prev == p.bytes)
             || (p.Missing? && prev == [])
    requires Grows(prev, polls)
    ensures PollAll(t, [p] + polls) == Tail(t.out + Final(prev, polls), |Final(prev, polls)|, false)
  {
    PollAllHead(t, p, polls);
    PollFromStart(t, p, prev);
    FollowFromStart(t.out, prev, polls);
  }

  lemma FollowFromStart(out: Bytes, prev: Bytes, polls: seq<Poll>)
    requires Grows(prev, polls)
    ensures PollAll(Tail(out + prev, |prev|, false), polls)
            == Tail(out + Final(prev, polls), |Final(prev, polls)|, false)
  {
    FollowingLosesNothing(Tail(out + prev, |prev|, false), prev, polls);
    FinalIsAppended(prev, polls);
    ConcatAssociates(out, prev, Appended(prev, polls));
  }

  lemma PollFromStart(t: Tail, p: Poll, prev: Bytes)
    requires !t.failed
    requires (p.Seen? && p.len < t.offset && prev == p.bytes) || (p.Missing? && prev == [])
    ensures PollOnce(t, p) == Tail(t.out + prev, |prev|, false)
  {
    if p.Missing? {
      assert t.out + prev == t.out;
    } else {
      assert prev[0..] == prev;
    }
  }

  /** A poll shows the file from its first byte exactly when nothing of it was consumed or it
      was seen shorter; a replacement at least as long goes unnoticed. */
  lemma ShowsFromStartIff(t: Tail, len: nat, bytes: Bytes)
    requires !t.failed && len <= |bytes| && bytes != []
    ensures PollOnce(t, Seen(len, bytes)).out == t.out + bytes <==> t.offset == 0 || len < t.offset
  {
    var after := PollOnce(t, Seen(len, bytes)).out;
    if t.offset == 0 { assert bytes[0..] == bytes; }
    if 0 < t.offset <= len { assert |after| < |t.out + bytes|; }
  }
}

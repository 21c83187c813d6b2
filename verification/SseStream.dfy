/**
 Incremental splitting of a server-sent event stream (scripts/a2a/debugger.py, read loop of `streamMessage`).
 The wire format is section 9.2.5 of the WHATWG HTML Standard: blocks end at a blank line, and a line may end
 with CR LF, LF or CR.

 The text arrives in arbitrary pieces. The loop appends a piece to a buffer, turns CR LF and then CR into LF
 in the whole buffer, emits every complete block and keeps the rest.
 */
module SseStream {
  import opened Wrappers

  // ---------- line endings ----------

  /** The first replacement: every CR LF becomes LF. */
  function ReplaceCrLf(s: string): string {
    if |s| < 2 then s
    else if s[0] == '\r' && s[1] == '\n' then "\n" + ReplaceCrLf(s[2..])
    else [s[0]] + ReplaceCrLf(s[1..])
  }

  /** The second replacement: every CR becomes LF. */
  function ReplaceCr(s: string): (r: string)
    ensures '\r' !in r
  {
    if s == [] then [] else [if s[0] == '\r' then '\n' else s[0]] + ReplaceCr(s[1..])
  }

  /** Every line end, of whichever kind, becomes one LF; `afterCr` says that a CR has just been read. */
  function Normalized(afterCr: bool, s: string): (r: string)
    ensures '\r' !in r
    decreases |s|
  {
    if s == [] then []
    else if afterCr && s[0] == '\n' then Normalized(false, s[1..])
    else [if s[0] == '\r' then '\n' else s[0]] + Normalized(s[0] == '\r', s[1..])
  }

  function Normalize(s: string): string {
    Normalized(false, s)
  }

  /** The two replacements in sequence normalise the text. */
  lemma {:induction false} ReplacementsNormalize(s: string)
    ensures ReplaceCr(ReplaceCrLf(s)) == Normalize(s)
  {
    if |s| >= 2 && s[0] == '\r' && s[1] == '\n' {
      ReplacementsNormalize(s[2..]);
      assert ("\n" + ReplaceCrLf(s[2..]))[1..] == ReplaceCrLf(s[2..]);
      assert s[1..][1..] == s[2..] && s[1..][0] == '\n';
      assert Normalized(true, s[1..]) == Normalized(false, s[2..]);
      assert Normalize(s) == "\n" + Normalize(s[2..]);
    } else if |s| >= 2 {
      ReplacementsNormalize(s[1..]);
      assert ([s[0]] + ReplaceCrLf(s[1..]))[1..] == ReplaceCrLf(s[1..]);
      AfterCr(s[1..]);
    } else if |s| == 1 {
      assert s[1..] == [] && ReplaceCrLf(s) == s;
      assert Normalized(s[0] == '\r', []) == [] && ReplaceCr([]) == [];
    }
  }

  /** Having just read a CR matters only when a LF follows, and then it swallows exactly that LF. */
  lemma AfterCr(s: string)
    ensures !(s != [] && s[0] == '\n') ==> Normalized(true, s) == Normalized(false, s)
    ensures s != [] && s[0] == '\n' ==> Normalized(false, s) == "\n" + Normalized(true, s)
  {
  }

  predicate EndsInCr(afterCr: bool, s: string) {
    if s == [] then afterCr else s[|s| - 1] == '\r'
  }

  lemma {:induction false} NormalizedConcat(afterCr: bool, a: string, b: string)
    ensures Normalized(afterCr, a + b) == Normalized(afterCr, a) + Normalized(EndsInCr(afterCr, a), b)
    decreases |a|
  {
    if a == [] {
      assert a + b == b;
    } else {
      assert (a + b)[1..] == a[1..] + b;
      var swallowed := afterCr && a[0] == '\n';
      NormalizedConcat(!swallowed && a[0] == '\r', a[1..], b);
    }
  }

  /** A CR LF pair has its two characters on different sides of the cut between `a` and `b`. */
  predicate Cut(a: string, b: string) {
    a != [] && a[|a| - 1] == '\r' && b != [] && b[0] == '\n'
  }

  /** Normalising is compositional except at a cut CR LF pair, which then counts as two line ends. */
  lemma NormalizeConcat(a: string, b: string)
    ensures !Cut(a, b) ==> Normalize(a + b) == Normalize(a) + Normalize(b)
    ensures Cut(a, b) ==> |Normalize(a + b)| + 1 == |Normalize(a)| + |Normalize(b)|
  {
    NormalizedConcat(false, a, b);
    AfterCr(b);
  }

  lemma {:induction false} NormalizeIsIdentity(s: string)
    requires '\r' !in s
    ensures Normalize(s) == s
  {
    if s != [] {
      NormalizeIsIdentity(s[1..]);
    }
  }

  // ---------- blocks ----------

  /** Splits at every blank line, leftmost first. The last element is the unfinished rest. */
  function Split(s: string): (r: seq<string>)
    ensures |r| >= 1
  {
    if |s| < 2 then [s]
    else if s[0] == '\n' && s[1] == '\n' then [[]] + Split(s[2..])
    else
      var r := Split(s[1..]);
      [[s[0]] + r[0]] + r[1..]
  }

  ghost function Join(blocks: seq<string>): string
    requires |blocks| >= 1
  {
    if |blocks| == 1 then blocks[0] else blocks[0] + "\n\n" + Join(blocks[1..])
  }

  lemma {:induction false} JoinSplit(s: string)
    ensures Join(Split(s)) == s
  {
    if |s| >= 2 {
      if s[0] == '\n' && s[1] == '\n' {
        JoinSplit(s[2..]);
        assert Split(s)[1..] == Split(s[2..]);
        assert s == "\n\n" + s[2..];
      } else {
        JoinSplit(s[1..]);
        var r := Split(s[1..]);
        assert Split(s)[1..] == r[1..];
        assert s == [s[0]] + s[1..];
      }
    }
  }

  ghost predicate HasBlankLine(s: string) {
    exists i :: 0 <= i < |s| - 1 && s[i] == '\n' && s[i + 1] == '\n'
  }

  ghost predicate Leftmost(blocks: seq<string>) {
    && blocks != [] && !HasBlankLine(blocks[|blocks| - 1])
    && forall i :: 0 <= i < |blocks| - 1 ==> !HasBlankLine(blocks[i] + "\n")
  }

  /** Every finished block ends at the first blank line behind its start, and the rest has none. */
  lemma {:induction false} SplitIsLeftmost(s: string)
    ensures Leftmost(Split(s))
  {
    if |s| >= 2 {
      hide Leftmost, HasBlankLine;
      if s[0] == '\n' && s[1] == '\n' {
        SplitIsLeftmost(s[2..]);
        EmptyFirst(Split(s[2..]));
      } else {
        SplitIsLeftmost(s[1..]);
        FirstOfSplit(s[1..]);
        LongerFirst(s[0], Split(s[1..]));
      }
    }
  }

  lemma EmptyFirst(blocks: seq<string>)
    requires Leftmost(blocks)
    ensures Leftmost([[]] + blocks)
  {
    hide HasBlankLine;
    NoBlankLineInOne();
    var longer := [[]] + blocks;
    forall i | 0 <= i < |longer| - 1 ensures !HasBlankLine(longer[i] + "\n") {
      if i > 0 { assert longer[i] == blocks[i - 1]; } else { assert [] + "\n" == "\n"; }
    }
    assert longer[|longer| - 1] == blocks[|blocks| - 1];
  }

  lemma NoBlankLineInOne()
    ensures !HasBlankLine("\n")
  {
  }

  lemma LongerFirst(c: char, blocks: seq<string>)
    requires Leftmost(blocks)
    requires c == '\n' ==> blocks[0] != [] && blocks[0][0] != '\n'
    ensures Leftmost([[c] + blocks[0]] + blocks[1..])
  {
    hide HasBlankLine;
    NoNewBlankLine(c, blocks[0], |blocks| > 1);
    var longer := [[c] + blocks[0]] + blocks[1..];
    assert forall i :: 0 < i < |blocks| ==> longer[i] == blocks[i];
  }

  /** The first block starts as the text does, or is empty because a blank line comes first. */
  lemma FirstOfSplit(s: string)
    requires s != []
    ensures var r := Split(s); if r[0] == [] then |r| > 1 && s[0] == '\n' else r[0][0] == s[0]
  {
  }

  lemma NoNewBlankLine(c: char, block: string, finished: bool)
    requires !HasBlankLine(if finished then block + "\n" else block)
    requires c == '\n' ==> if block == [] then false else block[0] != '\n'
    ensures !HasBlankLine(if finished then [c] + block + "\n" else [c] + block)
  {
    var before := if finished then block + "\n" else block;
    var after := if finished then [c] + block + "\n" else [c] + block;
    assert after == [c] + before;
    forall i | 0 <= i < |after| - 1 ensures !(after[i] == '\n' && after[i + 1] == '\n') {
      if i > 0 { assert after[i] == before[i - 1] && after[i + 1] == before[i]; }
    }
  }

  function Blocks(s: string): seq<string> {
    Split(s)[..|Split(s)| - 1]
  }

  function Rest(s: string): string {
    Split(s)[|Split(s)| - 1]
  }

  lemma NoBlocksAllRest(s: string)
    requires Blocks(s) == []
    ensures Rest(s) == s
  {
    JoinSplit(s);
  }

  lemma BlocksStep(s: string)
    requires |s| >= 2
    ensures s[0] == '\n' && s[1] == '\n' ==> Blocks(s) == [[]] + Blocks(s[2..]) && Rest(s) == Rest(s[2..])
    ensures !(s[0] == '\n' && s[1] == '\n') && Blocks(s[1..]) == [] ==> Blocks(s) == [] && Rest(s) == s
    ensures !(s[0] == '\n' && s[1] == '\n') && Blocks(s[1..]) != [] ==>
              && Blocks(s) == [[s[0]] + Blocks(s[1..])[0]] + Blocks(s[1..])[1..]
              && Rest(s) == Rest(s[1..])
  {
    if !(s[0] == '\n' && s[1] == '\n') {
      var r := Split(s[1..]);
      assert Split(s) == [[s[0]] + r[0]] + r[1..];
      if |r| == 1 {
        NoBlocksAllRest(s);
      } else {
        assert Split(s)[..|r| - 1] == [[s[0]] + r[0]] + r[..|r| - 1][1..];
      }
    }
  }

  /** What has been split off stays split off: only the rest can be affected by more text. */
  lemma {:induction false} SplitExtends(x: string, y: string)
    ensures Blocks(x + y) == Blocks(x) + Blocks(Rest(x) + y) && Rest(x + y) == Rest(Rest(x) + y)
    decreases |x|, 1
  {
    if |x| < 2 {
      assert Blocks(x) == [] && Rest(x) == x;
    } else if x[0] == '\n' && x[1] == '\n' {
      SplitExtendsTwo(x, y);
    } else {
      SplitExtendsOne(x, y);
    }
  }

  lemma {:induction false} SplitExtendsTwo(x: string, y: string)
    requires |x| >= 2 && x[0] == '\n' && x[1] == '\n'
    ensures Blocks(x + y) == Blocks(x) + Blocks(Rest(x) + y) && Rest(x + y) == Rest(Rest(x) + y)
    decreases |x|, 0
  {
    BlocksStep(x);
    BlocksStep(x + y);
    assert (x + y)[2..] == x[2..] + y;
    SplitExtends(x[2..], y);
  }

  lemma {:induction false} SplitExtendsOne(x: string, y: string)
    requires |x| >= 2 && !(x[0] == '\n' && x[1] == '\n')
    ensures Blocks(x + y) == Blocks(x) + Blocks(Rest(x) + y) && Rest(x + y) == Rest(Rest(x) + y)
    decreases |x|, 0
  {
    BlocksStep(x);
    var tail, more := Blocks(x[1..]), Blocks(Rest(x[1..]) + y);
    if tail != [] {
      assert Blocks(x[1..] + y) == tail + more && Rest(x[1..] + y) == Rest(Rest(x[1..]) + y) by {
        SplitExtends(x[1..], y);
      }
      assert Blocks(x + y) == [[x[0]] + (tail + more)[0]] + (tail + more)[1..] && Rest(x + y) == Rest(x[1..] + y) by {
        assert (x + y)[1..] == x[1..] + y && (x + y)[0] == x[0] && (x + y)[1] == x[1];
        BlocksStep(x + y);
      }
    }
  }

  // ---------- whole streams ----------

  ghost function Concat(pieces: seq<string>): string {
    if pieces == [] then [] else pieces[0] + Concat(pieces[1..])
  }

  /** The text that the loop has seen: each piece is normalised on its own. */
  ghost function Seen(pieces: seq<string>): string {
    if pieces == [] then [] else Normalize(pieces[0]) + Seen(pieces[1..])
  }

  /** How many CR LF pairs fall on a boundary between reads. */
  ghost function CutPairs(pieces: seq<string>): nat {
    if pieces == [] then 0
    else (if Cut(pieces[0], Concat(pieces[1..])) then 1 else 0) + CutPairs(pieces[1..])
  }

  lemma {:induction false} SeenAppend(pieces: seq<string>, piece: string)
    ensures Seen(pieces + [piece]) == Seen(pieces) + Normalize(piece)
  {
    if pieces == [] {
      assert pieces + [piece] == [piece];
    } else {
      assert (pieces + [piece])[1..] == pieces[1..] + [piece];
      SeenAppend(pieces[1..], piece);
    }
  }

  /** Every cut pair adds one line end to what the loop sees. */
  lemma {:induction false} SeenVersusStream(pieces: seq<string>)
    ensures |Seen(pieces)| == |Normalize(Concat(pieces))| + CutPairs(pieces)
    ensures CutPairs(pieces) == 0 ==> Seen(pieces) == Normalize(Concat(pieces))
  {
    if pieces != [] {
      SeenVersusStream(pieces[1..]);
      NormalizeConcat(pieces[0], Concat(pieces[1..]));
    }
  }

  /** The loop splits the stream as if it had arrived in one piece exactly when no CR LF pair was cut. */
  lemma SplitAsWholeIffNoCut(pieces: seq<string>)
    ensures Split(Seen(pieces)) == Split(Normalize(Concat(pieces))) <==> CutPairs(pieces) == 0
  {
    SeenVersusStream(pieces);
    JoinSplit(Seen(pieces));
    JoinSplit(Normalize(Concat(pieces)));
  }

  lemma {:induction false} NoCarriageReturnNoCut(pieces: seq<string>)
    requires '\r' !in Concat(pieces)
    ensures CutPairs(pieces) == 0
  {
    if pieces != [] {
      assert forall c :: c in pieces[0] || c in Concat(pieces[1..]) ==> c in Concat(pieces);
      NoCarriageReturnNoCut(pieces[1..]);
    }
  }

  // ---------- events ----------

  /** Parses blocks in order, dropping those without data, up to and including the first stopping event. */
  function Events<E>(blocks: seq<string>, parse: string -> Option<E>, stop: E -> bool): seq<E> {
    if blocks == [] then []
    else
      match parse(blocks[0])
      case None => Events(blocks[1..], parse, stop)
      case Some(e) => [e] + if stop(e) then [] else Events(blocks[1..], parse, stop)
  }

  ghost predicate Stopped<E>(events: seq<E>, stop: E -> bool) {
    events != [] && stop(events[|events| - 1])
  }

  lemma {:induction false} EventsConcat<E>(a: seq<string>, b: seq<string>, parse: string -> Option<E>, stop: E -> bool)
    ensures Events(a + b, parse, stop) ==
            if Stopped(Events(a, parse, stop), stop) then Events(a, parse, stop)
            else Events(a, parse, stop) + Events(b, parse, stop)
  {
    if a == [] {
      assert a + b == b;
    } else {
      assert (a + b)[1..] == a[1..] + b;
      EventsConcat(a[1..], b, parse, stop);
    }
  }

  lemma {:induction false} EventsStep<E>(blocks: seq<string>, k: nat, parse: string -> Option<E>, stop: E -> bool)
    requires k < |blocks| && !Stopped(Events(blocks[..k], parse, stop), stop)
    ensures Events(blocks[..k + 1], parse, stop) ==
            Events(blocks[..k], parse, stop) + (var e := parse(blocks[k]); if e.Some? then [e.value] else [])
  {
    assert blocks[..k + 1] == blocks[..k] + [blocks[k]];
    EventsConcat(blocks[..k], [blocks[k]], parse, stop);
    assert [blocks[k]][1..] == [];
  }

  lemma {:induction false} EventsPrefix<E>(blocks: seq<string>, k: nat, parse: string -> Option<E>, stop: E -> bool)
    requires k <= |blocks|
    ensures Stopped(Events(blocks[..k], parse, stop), stop) ==>
              Events(blocks, parse, stop) == Events(blocks[..k], parse, stop)
  {
    assert blocks == blocks[..k] + blocks[k..];
    EventsConcat(blocks[..k], blocks[k..], parse, stop);
  }

  /** The blocks that one read completes, parsed until one of them stops the stream. */
  method EmitBlocks<E>(blocks: seq<string>, parse: string -> Option<E>, stop: E -> bool)
    returns (events: seq<E>, stopped: bool)
    ensures events == Events(blocks, parse, stop) && stopped == Stopped(events, stop)
  {
    events, stopped := [], false;
    for k := 0 to |blocks|
      invariant events == Events(blocks[..k], parse, stop) && !Stopped(events, stop) && !stopped
    {
      EventsStep(blocks, k, parse, stop);
      EventsPrefix(blocks, k + 1, parse, stop);
      var parsed := parse(blocks[k]);
      if parsed.Some? {
        events := events + [parsed.value];
        if stop(parsed.value) {
          return events, true;
        }
      }
    }
    assert blocks[..|blocks|] == blocks;
  }

  /**
   The read loop. The emitted events are those of the complete blocks of everything seen, whether or not the
   stream was stopped early; an unstopped loop keeps the unfinished block.
   */
  method StreamEvents<E>(pieces: seq<string>, parse: string -> Option<E>, stop: E -> bool)
    returns (events: seq<E>, buffer: string)
    ensures events == Events(Blocks(Seen(pieces)), parse, stop)
    ensures !Stopped(events, stop) ==> buffer == Rest(Seen(pieces))
  {
    events, buffer := [], [];
    assert Split([]) == [[]];
    for k := 0 to |pieces|
      invariant Progress(Seen(pieces[..k]), events, buffer, parse, stop) && !Stopped(events, stop)
    {
      NextPiece(pieces, k, events, buffer, parse, stop);
      var text := ReplaceCr(ReplaceCrLf(buffer + pieces[k]));
      buffer := Rest(text);
      var emitted, stopped := EmitBlocks(Blocks(text), parse, stop);
      events := events + emitted;
      if stopped {
        StoppedStays(pieces, k + 1, parse, stop);
        return;
      }
    }
    assert pieces[..|pieces|] == pieces;
  }

  ghost predicate Progress<E>(seen: string, events: seq<E>, buffer: string, parse: string -> Option<E>,
                              stop: E -> bool) {
    events == Events(Blocks(seen), parse, stop) && buffer == Rest(seen)
  }

  lemma RestOfMore(pieces: seq<string>, k: nat)
    requires k < |pieces|
    ensures var seen := Seen(pieces[..k]);
            var text := ReplaceCr(ReplaceCrLf(Rest(seen) + pieces[k]));
            && Blocks(Seen(pieces[..k + 1])) == Blocks(seen) + Blocks(text)
            && Rest(Seen(pieces[..k + 1])) == Rest(text)
  {
    var seen := Seen(pieces[..k]);
    assert pieces[..k + 1] == pieces[..k] + [pieces[k]];
    SeenAppend(pieces[..k], pieces[k]);
    RestHasNoCr(seen, pieces[..k]);
    ReplacementsNormalize(Rest(seen) + pieces[k]);
    NormalizeConcat(Rest(seen), pieces[k]);
    NormalizeIsIdentity(Rest(seen));
    SplitExtends(seen, Normalize(pieces[k]));
  }

  /** One more piece: its blocks and its rest continue those of everything before it. */
  lemma NextPiece<E>(pieces: seq<string>, k: nat, events: seq<E>, buffer: string, parse: string -> Option<E>,
                     stop: E -> bool)
    requires k < |pieces| && Progress(Seen(pieces[..k]), events, buffer, parse, stop) && !Stopped(events, stop)
    ensures var text := ReplaceCr(ReplaceCrLf(buffer + pieces[k]));
            Progress(Seen(pieces[..k + 1]), events + Events(Blocks(text), parse, stop), Rest(text), parse, stop)
  {
    RestOfMore(pieces, k);
    EventsConcat(Blocks(Seen(pieces[..k])), Blocks(ReplaceCr(ReplaceCrLf(buffer + pieces[k]))), parse, stop);
  }

  lemma {:induction false} SeenHasNoCr(pieces: seq<string>)
    ensures '\r' !in Seen(pieces)
  {
    if pieces != [] { SeenHasNoCr(pieces[1..]); }
  }

  lemma {:induction false} RestIsSuffix(s: string)
    ensures forall c :: c in Rest(s) ==> c in s
  {
    if |s| >= 2 {
      BlocksStep(s);
      RestIsSuffix(s[1..]);
      RestIsSuffix(s[2..]);
    }
  }

  lemma RestHasNoCr(s: string, pieces: seq<string>)
    requires s == Seen(pieces)
    ensures '\r' !in Rest(s)
  {
    SeenHasNoCr(pieces);
    RestIsSuffix(s);
  }

  lemma {:induction false} SeenConcat(a: seq<string>, b: seq<string>)
    ensures Seen(a + b) == Seen(a) + Seen(b)
  {
    if a == [] {
      assert a + b == b;
    } else {
      assert (a + b)[1..] == a[1..] + b;
      SeenConcat(a[1..], b);
    }
  }

  lemma {:induction false} BlocksOfMore(pieces: seq<string>, k: nat)
    requires k <= |pieces|
    ensures Blocks(Seen(pieces)) ==
            Blocks(Seen(pieces[..k])) + Blocks(Rest(Seen(pieces[..k])) + Seen(pieces[k..]))
  {
    assert pieces == pieces[..k] + pieces[k..];
    SeenConcat(pieces[..k], pieces[k..]);
    SplitExtends(Seen(pieces[..k]), Seen(pieces[k..]));
  }

  lemma StoppedStays<E>(pieces: seq<string>, k: nat, parse: string -> Option<E>, stop: E -> bool)
    requires k <= |pieces| && Stopped(Events(Blocks(Seen(pieces[..k])), parse, stop), stop)
    ensures Events(Blocks(Seen(pieces)), parse, stop) == Events(Blocks(Seen(pieces[..k])), parse, stop)
  {
    BlocksOfMore(pieces, k);
    EventsConcat(Blocks(Seen(pieces[..k])), Blocks(Rest(Seen(pieces[..k])) + Seen(pieces[k..])), parse, stop);
  }

  /** Two fragmentations of one stream without cut pairs give the same events; without any CR no pair can be cut. */
  lemma FragmentationIsIrrelevant<E>(a: seq<string>, b: seq<string>, parse: string -> Option<E>, stop: E -> bool)
    requires Concat(a) == Concat(b)
    ensures CutPairs(a) == 0 && CutPairs(b) == 0 ==>
              && Events(Blocks(Seen(a)), parse, stop) == Events(Blocks(Seen(b)), parse, stop)
              && Rest(Seen(a)) == Rest(Seen(b))
    ensures '\r' !in Concat(a) ==>
              && Blocks(Seen(a)) == Blocks(Concat(a))
              && Events(Blocks(Seen(a)), parse, stop) == Events(Blocks(Seen(b)), parse, stop)
  {
    SeenVersusStream(a);
    SeenVersusStream(b);
    if '\r' !in Concat(a) {
      NoCarriageReturnNoCut(a);
      NoCarriageReturnNoCut(b);
      NormalizeIsIdentity(Concat(a));
    }
  }
}

/** What pruning and compression do to every single tool result, and how much a cut keeps. */
module PruneLaws {
  import opened Seqs
  import opened Messages
  import opened ContextPruner

  // ---------------------------------------------------------------------
  // Which results are pruned, and how
  // ---------------------------------------------------------------------

  /** Where the assistant messages from index `from` on stand. */
  function Assistants(ms: seq<Message>, from: nat): set<int> {
    set k | from <= k < |ms| && ms[k].role.Assistant?
  }

  lemma {:induction false} AssistantsCounted(ms: seq<Message>, from: nat)
    requires from <= |ms|
    ensures |Assistants(ms, from)| == AssistantsFrom(ms, from)
    decreases |ms| - from
  {
    if from == |ms| {
      assert forall k :: k !in Assistants(ms, from);
      NoMembers(Assistants(ms, from));
    } else {
      AssistantsCounted(ms, from + 1);
      if ms[from].role.Assistant? {
        assert Assistants(ms, from) == Assistants(ms, from + 1) + {from};
      } else {
        assert Assistants(ms, from) == Assistants(ms, from + 1);
      }
    }
  }

  /** More than n assistant messages in all, and at least n of them after message i. */
  predicate IsOlder(ms: seq<Message>, i: nat, n: int) {
    |Assistants(ms, 0)| > n && |Assistants(ms, i + 1)| >= n
  }

  /** A user message stands before message i, or there is none at all. */
  predicate IsPastStart(ms: seq<Message>, i: nat)
    requires i < |ms|
  {
    (exists k :: 0 <= k < i && ms[k].role.User?) || forall k :: 0 <= k < |ms| ==> !ms[k].role.User?
  }

  lemma OlderIff(ms: seq<Message>, i: nat, n: int)
    requires i < |ms|
    ensures IsOlder(ms, i, n) <==> OlderThan(ms, i, n)
  {
    AssistantsCounted(ms, 0);
    AssistantsCounted(ms, i + 1);
  }

  /** A text of more lines than are kept, shortened to its first and last lines around the notice; any
      other text as it is. */
  predicate IsShortened(content: string, keep: int, short: string) {
    var lines, kept := Lines(content), Max(0, keep);
    if |lines| <= keep * 2 then short == content
    else
      && Terminated(lines[..kept]) <= short
      && short[|Terminated(lines[..kept])|..] ==
         Notice(|content|, |lines| - keep * 2) + Separated(lines[|lines| - kept..])
  }

  /** What becomes of a tool result that may be pruned. */
  predicate IsPruned(opts: Options, aged: bool, b: Block, r: Block) {
    if aged then r == MakeToolResult(b.toolUseId, "[Tool result omitted \U{00E2}\U{0080}\U{0094} older context]")
    else if |b.content| <= opts.maxToolResultChars then r == b
    else r == MakeToolResult(b.toolUseId, r.content) && IsShortened(b.content, opts.softPruneLines, r.content)
  }

  predicate MayPrune(ms: seq<Message>, opts: Options, i: nat)
    requires i < |ms|
  {
    IsOlder(ms, i, opts.protectRecent) && IsPastStart(ms, i)
  }

  lemma BlockPruned(opts: Options, hard: bool, b: Block)
    requires b.kind.ToolResult?
    ensures IsPruned(opts, hard, b, PruneBlock(b, hard, opts))
  {
    hide Lines, Terminated, Separated, Notice;
    SoftPruneKeepsEnds(b.content, opts.softPruneLines);
  }

  /** Every block of a pruned history: in a message past the first user message that is older than the
      last protect_recent assistant messages a result becomes the placeholder if it is older than the
      last hard_prune_after of them too, and otherwise is shortened if it is too long; every other block
      is as it was. */
  lemma PruneIs(ms: seq<Message>, opts: Options, i: nat, j: nat)
    requires i < |ms| && j < |ms[i].content|
    ensures var r, e := Pruned(ms, opts), Effective(opts, ms);
            && |r| == |ms| && r[i].role == ms[i].role && |r[i].content| == |ms[i].content|
            && var b := ms[i].content[j];
               if b.kind.ToolResult? && MayPrune(ms, e, i)
               then IsPruned(e, IsOlder(ms, i, e.hardPruneAfter), b, r[i].content[j])
               else r[i].content[j] == b
  {
    hide Effective, PruneBlock, IsPruned, IsOlder, OlderThan;
    var e, b := Effective(opts, ms), ms[i].content[j];
    OlderIff(ms, i, e.protectRecent);
    OlderIff(ms, i, e.hardPruneAfter);
    if b.kind.ToolResult? {
      BlockPruned(e, IsOlder(ms, i, e.hardPruneAfter), b);
      assert b in ms[i].content;
    } else {
      OtherBlocksStay(e, IsOlder(ms, i, e.hardPruneAfter), b);
    }
  }

  lemma OtherBlocksStay(opts: Options, hard: bool, b: Block)
    requires !b.kind.ToolResult?
    ensures PruneBlock(b, hard, opts) == b
  {
  }

  lemma {:induction false} FewerLater(ms: seq<Message>, i: nat, k: nat)
    requires i <= k
    ensures |Assistants(ms, k)| <= |Assistants(ms, i)|
  {
    Fewer(Assistants(ms, k), Assistants(ms, i));
  }

  lemma Fewer(a: set<int>, b: set<int>)
    requires a <= b
    ensures |a| <= |b|
  {
    assert |b| == |a| + |b - a| by { assert b == a + (b - a); }
  }

  /** A result is never made a placeholder where an older one that may be pruned is not. */
  lemma OldestGoFirst(ms: seq<Message>, opts: Options, i: nat, j: nat, k: nat)
    requires i < k < |ms| && j < |ms[i].content| && ms[i].content[j].kind.ToolResult?
    requires var e := Effective(opts, ms); IsPastStart(ms, i) && MayPrune(ms, e, k) && IsOlder(ms, k, e.hardPruneAfter)
    ensures Pruned(ms, opts)[i].content[j] == MakeToolResult(ms[i].content[j].toolUseId, OMITTED_RESULT)
  {
    hide Effective;
    FewerLater(ms, i + 1, k + 1);
    PruneIs(ms, opts, i, j);
  }

  // ---------------------------------------------------------------------
  // Lines
  // ---------------------------------------------------------------------

  predicate IsLine(s: string) {
    '\n' !in s
  }

  lemma {:induction false} LinesCons(first: string, lines: seq<string>)
    ensures lines != [] ==> Separated([first] + lines) == first + "\n" + Separated(lines)
    ensures Terminated([first] + lines) == first + "\n" + Terminated(lines)
    decreases lines
  {
    var all := [first] + lines;
    if lines != [] {
      var n := |lines| - 1;
      assert all[..n + 1] == [first] + lines[..n] && all[n + 1] == lines[n];
      LinesCons(first, lines[..n]);
      Assoc(first + "\n", Terminated(lines[..n]), lines[n]);
      Assoc(first + "\n", Terminated(lines[..n]) + lines[n], "\n");
    } else {
      assert all[..0] == [] && all == [first] && Terminated(all[..0]) == "";
      assert Terminated(all) == "" + first + "\n" && first + "\n" + "" == first + "\n";
    }
  }

  predicate AllLines(lines: seq<string>) {
    forall line :: line in lines ==> IsLine(line)
  }

  lemma LinesUnfold(s: string)
    requires s != "" && LineEnd(s) < |s|
    ensures Lines(s) == [s[..LineEnd(s)]] + Lines(s[LineEnd(s) + 1..])
  {
    hide LineEnd;
  }

  lemma LinesStep(s: string)
    requires s != "" && LineEnd(s) < |s|
    ensures var n := LineEnd(s);
            IsLine(s[..n]) && s == s[..n] + "\n" + s[n + 1..] && Lines(s) == [s[..n]] + Lines(s[n + 1..])
  {
    hide LineEnd, Lines;
    var n := LineEnd(s);
    LinesUnfold(s);
    BrokenAt(s, n);
  }

  lemma BrokenAt(s: string, n: nat)
    requires n < |s| && s[n] == '\n' && forall k :: 0 <= k < n ==> s[k] != '\n'
    ensures IsLine(s[..n]) && s == s[..n] + "\n" + s[n + 1..]
  {
  }

  lemma OneLine(s: string)
    requires s != "" && LineEnd(s) == |s|
    ensures Lines(s) == [s] && IsLine(s) && Separated([s]) == s && s[|s| - 1] != '\n'
  {
    assert [s][..0] == [] && "" + s == s;
  }

  /** The lines of a text hold no line break, and are the text again with one after each line, or, if
      the text does not end in one, between them. */
  lemma {:induction false} LinesAre(s: string)
    ensures AllLines(Lines(s))
    ensures s == if s != "" && s[|s| - 1] == '\n' then Terminated(Lines(s)) else Separated(Lines(s))
    ensures s != "" ==> Lines(s) != []
    decreases |s|
  {
    hide Lines, Terminated, Separated, IsLine;
    if s == "" {
      NoText();
    } else if LineEnd(s) == |s| {
      OneLine(s);
    } else {
      var n := LineEnd(s);
      var rest := s[n + 1..];
      LinesStep(s);
      LinesAre(rest);
      LinesCons(s[..n], Lines(rest));
      if rest == "" {
        NoText();
        assert s[|s| - 1] == s[n];
      } else {
        assert rest[|rest| - 1] == s[|s| - 1];
      }
    }
  }

  lemma NoText()
    ensures Lines("") == [] && Terminated([]) == "" && Separated([]) == ""
  {
  }

  // ---------------------------------------------------------------------
  // Scaled numbers
  // ---------------------------------------------------------------------

  /** r is n * part / whole, cut off to an integer. */
  predicate IsScaled(n: int, part: int, whole: int, r: int) {
    r >= 0 && r * whole <= n * part < (r + 1) * whole
  }

  lemma TimesMonotone(a: real, b: real, c: real)
    requires c > 0.0
    ensures a <= b ==> a * c <= b * c
    ensures a < b ==> a * c < b * c
  {
  }

  lemma RealTimes(a: int, b: int)
    ensures (a * b) as real == a as real * b as real
  {
  }

  lemma WholePart(x: real)
    requires x >= 0.0
    ensures Truncate(x) >= 0 && Truncate(x) as real <= x < (Truncate(x) + 1) as real
  {
  }

  lemma TimesBelow(r: int, x: real, whole: nat, total: int)
    requires whole > 0 && x * whole as real == total as real && r as real <= x
    ensures r * whole <= total
  {
    var y := r as real;
    TimesMonotone(y, x, whole as real);
    RealTimes(r, whole);
  }

  lemma TimesAbove(r: int, x: real, whole: nat, total: int)
    requires whole > 0 && x * whole as real == total as real && x < r as real
    ensures total < r * whole
  {
    var y := r as real;
    TimesMonotone(x, y, whole as real);
    RealTimes(r, whole);
  }

  lemma FloorScales(x: real, n: nat, part: nat, whole: nat)
    requires x >= 0.0 && whole > 0 && x * whole as real == (n * part) as real
    ensures IsScaled(n, part, whole, Truncate(x))
  {
    hide Truncate;
    WholePart(x);
    TimesBelow(Truncate(x), x, whole, n * part);
    TimesAbove(Truncate(x) + 1, x, whole, n * part);
  }

  lemma FactorScales(x: real, q: real, n: nat, part: nat, whole: nat)
    requires x == n as real && q >= 0.0 && whole > 0 && q * whole as real == part as real
    ensures IsScaled(n, part, whole, Truncate(x * q))
  {
    hide Truncate, IsScaled;
    TimesAssoc(x, q, whole as real);
    RealTimes(n, part);
    NotNegative(x, q);
    FloorScales(x * q, n, part, whole);
  }

  lemma Quotient(a: real, b: real)
    requires a >= 0.0 && b > 0.0
    ensures a / b >= 0.0 && (a / b) * b == a
  {
  }

  lemma RatioIs(target: nat, tokens: nat)
    requires tokens > 0
    ensures var q := Ratio(target, tokens); q >= 0.0 && q * tokens as real == target as real
  {
    Quotient(target as real, tokens as real);
  }

  lemma TimesAssoc(a: real, b: real, c: real)
    ensures (a * b) * c == a * (b * c)
  {
  }

  lemma NotNegative(a: real, b: real)
    requires a >= 0.0 && b >= 0.0
    ensures a * b >= 0.0
  {
  }

  /** Dividing by whole / part. */
  lemma InverseScales(n: nat, part: nat, whole: nat)
    requires part > 0 && whole > 0
    ensures IsScaled(n, part, whole, Truncate(n as real / (whole as real / part as real)))
  {
    hide Truncate, IsScaled;
    var over := whole as real / part as real;
    assert over > 0.0 && over * part as real == whole as real;
    var x := n as real / over;
    Quotient(n as real, over);
    TimesAssoc(x, over, part as real);
    RealTimes(n, part);
    FloorScales(x, n, part, whole);
  }

  // ---------------------------------------------------------------------
  // The thresholds in force
  // ---------------------------------------------------------------------

  /** v scaled down, but no further than the floor. */
  predicate IsLowered(v: int, part: int, whole: int, floor: int, r: int) {
    r >= floor && (IsScaled(v, part, whole, r) || (r == floor && v * part < (floor + 1) * whole))
  }

  lemma LoweredBy(v: nat, part: nat, whole: nat, floor: nat, t: int)
    requires whole > 0 && IsScaled(v, part, whole, t)
    ensures IsLowered(v, part, whole, floor, Max(floor, t))
  {
    if t < floor {
      TimesLess(t + 1, floor + 1, whole);
    }
  }

  lemma TimesLess(a: int, b: int, c: nat)
    ensures a <= b ==> a * c <= b * c
  {
  }

  lemma RatioLowers(x: real, q: real, y: real, v: nat, part: nat, whole: nat, floor: nat)
    requires x == v as real && q >= 0.0 && whole > 0 && q * whole as real == part as real && y == x * q
    ensures IsLowered(v, part, whole, floor, Max(floor, Truncate(y)))
  {
    hide IsScaled, IsLowered, Truncate, Max;
    FactorScales(x, q, v, part, whole);
    LoweredBy(v, part, whole, floor, Truncate(y));
  }

  /** Dividing by whole / part, a negative number too, for which the floor is left. */
  lemma InverseLowers(v: int, part: nat, whole: nat, floor: nat, over: real)
    requires part > 0 && whole > 0 && over == whole as real / part as real
    ensures IsLowered(v, part, whole, floor, Max(floor, Truncate(v as real / over)))
  {
    hide IsScaled, Truncate;
    if v >= 0 {
      InverseScales(v, part, whole);
      LoweredBy(v, part, whole, floor, Truncate(v as real / over));
    } else {
      NegativeQuotient(v as real, whole as real, part as real);
      CutOffNegative(v as real / over);
      TimesLess(v, 0, part);
      TimesLess(0, floor + 1, whole);
      TimesStrict(v, part);
    }
  }

  lemma TimesStrict(v: int, part: nat)
    requires v < 0 < part
    ensures v * part < 0
  {
  }

  lemma NegativeQuotient(a: real, b: real, c: real)
    requires a < 0.0 && b > 0.0 && c > 0.0
    ensures b / c > 0.0 && a / (b / c) < 0.0
  {
  }

  lemma CutOffNegative(x: real)
    requires x < 0.0
    ensures Truncate(x) <= 0
  {
  }

  /** Within the budget the thresholds are those given; over it they are lowered in proportion, to no
      less than 200 characters, 1 and 3 assistant messages, and nothing else changes. */
  lemma EffectiveIs(opts: Options, history: seq<Message>)
    ensures var e, budget, tokens := Effective(opts, history), Budget(opts), Estimate(history);
            if opts.contextWindow <= 0 || budget <= 0 || tokens <= budget then e == opts
            else
              && e == opts.(maxToolResultChars := e.maxToolResultChars, protectRecent := e.protectRecent,
                            hardPruneAfter := e.hardPruneAfter)
              && IsLowered(opts.maxToolResultChars, budget, tokens, 200, e.maxToolResultChars)
              && IsLowered(opts.protectRecent, budget, tokens, 1, e.protectRecent)
              && IsLowered(opts.hardPruneAfter, budget, tokens, 3, e.hardPruneAfter)
  {
    hide Estimate, Budget, IsLowered, Truncate, Max;
    var budget, tokens := Budget(opts), Estimate(history);
    if opts.contextWindow > 0 && 0 < budget < tokens {
      var over := tokens as real / budget as real;
      InverseLowers(opts.maxToolResultChars, budget, tokens, 200, over);
      InverseLowers(opts.protectRecent, budget, tokens, 1, over);
      InverseLowers(opts.hardPruneAfter, budget, tokens, 3, over);
    }
  }

  /** The options a compression prunes with, for a history over a target that is not negative. */
  lemma CompressOptionsAre(target: nat, tokens: nat, s: Strategy)
    requires target < tokens
    ensures var o := CompressOptions(Ratio(target, tokens), target, s);
            && (if s.preserveRecent then IsLowered(5, target, tokens, 3, o.protectRecent) else o.protectRecent == 1)
            && (if s.preserveToolCalls then
                  o.softPruneLines == 5 && IsLowered(2000, target, tokens, 500, o.maxToolResultChars)
                else o.softPruneLines == 2 && o.maxToolResultChars == 200)
            && IsLowered(10, target, tokens, 5, o.hardPruneAfter)
            && o.contextWindow == 4 * target && o.maxTokens == 0 && o.pruneTargetRatio == 1.0
  {
    hide IsLowered, Truncate, Max, Ratio, CompressOptions;
    var q := Ratio(target, tokens);
    var five, ten, most := 5.0 * q, 10.0 * q, 2000.0 * q;
    RatioIs(target, tokens);
    RatioLowers(5.0, q, five, 5, target, tokens, 3);
    RatioLowers(2000.0, q, most, 2000, target, tokens, 500);
    RatioLowers(10.0, q, ten, 10, target, tokens, 5);
    OptionsAre(q, target, s, five, ten, most);
  }

  lemma OptionsAre(q: real, target: int, s: Strategy, five: real, ten: real, most: real)
    requires five == 5.0 * q && ten == 10.0 * q && most == 2000.0 * q
    ensures CompressOptions(q, target, s) ==
            Options(if s.preserveRecent then Max(3, Truncate(five)) else 1, if s.preserveToolCalls then 5 else 2,
                    Max(5, Truncate(ten)), if s.preserveToolCalls then Max(500, Truncate(most)) else 200,
                    target * 4, 0, 1.0)
  {
    hide Truncate, Max;
  }

  // ---------------------------------------------------------------------
  // How much a cut keeps
  // ---------------------------------------------------------------------

  /** A cut keeps the newest n messages of the pruned history, and of the older ones the system
      messages if they are to be preserved; n is the share of the messages that the target is of the
      tokens, but at least min_messages and at most all. */
  lemma CutKeeps(ms: seq<Message>, target: nat, s: Strategy) returns (n: nat)
    requires Cuts(ms, target, s) && s.minMessages >= 0
    ensures n <= |ms| && IsLowered(|ms|, target, Estimate(ms), s.minMessages, n)
    ensures var r, pruned := Compressed(ms, target, s), PrunedFor(ms, target, s);
            |pruned| == |ms| &&
            r == if s.preserveSystem then Systems(pruned) + NonSystems(pruned[|ms| - n..]) else pruned[|ms| - n..]
  {
    hide Pruned, Estimate, IsLowered, CompressOptions, Max, Ratio, Truncate;
    var tokens := Estimate(ms);
    var pruned := PrunedFor(ms, target, s);
    PrunedShape(ms, CompressOptions(Ratio(target, tokens), target, s));
    var size := CutSize(|ms|, target, tokens, s.minMessages);
    AtLeastFloor(|ms|, target, tokens, s.minMessages, size);
    n := size;
    MaxOf(|ms| - n);
  }

  lemma KeepIs(count: nat, q: real, floor: int, y: real)
    requires y == count as real * q
    ensures Keep(count, q, floor) == Max(floor, Truncate(y))
  {
    hide Truncate, Max;
  }

  lemma CutSize(count: nat, target: nat, tokens: nat, floor: nat) returns (n: int)
    requires target < tokens && floor < count
    ensures n == Keep(count, Ratio(target, tokens), floor)
    ensures n <= count && IsLowered(count, target, tokens, floor, n)
  {
    hide IsLowered, Truncate, Max, Ratio, Keep;
    RatioIs(target, tokens);
    var q := Ratio(target, tokens);
    var y := count as real * q;
    RatioLowers(count as real, q, y, count, target, tokens, floor);
    KeepIs(count, q, floor, y);
    n := Max(floor, Truncate(y));
    ShareIsLess(count, target, tokens, floor, n);
  }

  lemma AtLeastFloor(count: nat, target: nat, tokens: nat, floor: nat, n: int)
    requires IsLowered(count, target, tokens, floor, n)
    ensures n >= floor
  {
  }

  /** A history within its target is returned as it is, one that pruning brings within it, or that has
      no more messages than the minimum, is pruned, and any other is cut: that is when CutKeeps speaks. */
  lemma CompressIs(ms: seq<Message>, target: int, s: Strategy)
    requires Compressible(ms, target)
    ensures var pruned := PrunedFor(ms, target, s);
            if ms == [] || Estimate(ms) <= target then Compressed(ms, target, s) == ms && !Cuts(ms, target, s)
            else if Estimate(pruned) <= target || |ms| <= s.minMessages then
              Compressed(ms, target, s) == pruned && !Cuts(ms, target, s)
            else Cuts(ms, target, s)
  {
    hide Estimate, Pruned, Compacted, CompressOptions;
    PrunedShape(ms, CompressOptions(Ratio(target, Estimate(ms)), target, s));
  }

  lemma ShareIsLess(count: nat, target: nat, tokens: nat, floor: nat, n: int)
    requires target < tokens && floor < count && IsLowered(count, target, tokens, floor, n)
    ensures n <= count
  {
    if n != floor {
      TimesLess(target, tokens, count);
      Cancel(n, count, tokens);
    }
  }

  lemma Cancel(a: int, b: int, c: nat)
    requires c > 0 && a * c <= b * c
    ensures a <= b
  {
    TimesLess(b + 1, a, c);
    assert (b + 1) * c == b * c + c;
  }

  lemma MaxOf(d: int)
    requires d >= 0
    ensures Max(0, d) == d
  {
  }

  // ---------------------------------------------------------------------
  // The estimate
  // ---------------------------------------------------------------------

  lemma {:induction false} BlockCharsConcat(a: seq<Block>, b: seq<Block>)
    ensures BlockChars(a + b) == BlockChars(a) + BlockChars(b)
  {
    if a == [] {
      assert a + b == b;
    } else {
      BlockCharsConcat(a[1..], b);
      Uncons(a, b);
    }
  }

  /** A history is estimated message by message, and a message at a fourth, cut off, of the characters of
      its role's name and of the texts, results and call arguments of its blocks. */
  lemma EstimateIs(ms: seq<Message>, m: Message, blocks: seq<Block>, b: Block)
    ensures Estimate(ms + [m]) == Estimate(ms) + EstimateMessage(m)
    ensures 4 * EstimateMessage(m) <= |RoleName(m.role)| + BlockChars(m.content) < 4 * EstimateMessage(m) + 4
    ensures BlockChars([]) == 0
    ensures BlockChars(blocks + [b]) == BlockChars(blocks) + |b.text| + |b.content| + |b.input|
  {
    EstimateConcat(ms, [m]);
    BlockCharsConcat(blocks, [b]);
    assert [m][1..] == [] && [b][1..] == [];
  }

  lemma {:induction false} EstimateConcat(a: seq<Message>, b: seq<Message>)
    ensures Estimate(a + b) == Estimate(a) + Estimate(b)
  {
    if a == [] {
      assert a + b == b;
    } else {
      EstimateConcat(a[1..], b);
      Uncons(a, b);
    }
  }
}

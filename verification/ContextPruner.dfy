/** Pruning old tool results out of a conversation, and compressing it to a token target. Strings
    are byte sequences, one char a byte; the source's doubles are modelled as reals. The thresholds
    that the source finds by collecting indexes are told here from the messages around. */
module ContextPruner {
  import opened Seqs
  import opened Messages
  import QueueText

  datatype Options = Options(protectRecent: int, softPruneLines: int, hardPruneAfter: int, maxToolResultChars: int,
                             contextWindow: int, maxTokens: int, pruneTargetRatio: real)

  function Max(a: int, b: int): int {
    if a >= b then a else b
  }

  /** static_cast<int> of a floating-point number. */
  function Truncate(x: real): int {
    if x >= 0.0 then x.Floor else -((-x).Floor)
  }

  // ---------------------------------------------------------------------
  // Token estimate
  // ---------------------------------------------------------------------

  function RoleName(role: Role): string {
    match role
    case System => "system"
    case User => "user"
    case Assistant => "assistant"
    case OtherRole(name) => name
  }

  function BlockChars(blocks: seq<Block>): nat {
    if blocks == [] then 0
    else |blocks[0].text| + |blocks[0].content| + |blocks[0].input| + BlockChars(blocks[1..])
  }

  function EstimateMessage(m: Message): nat {
    (|RoleName(m.role)| + BlockChars(m.content)) / 4
  }

  function Estimate(ms: seq<Message>): nat {
    if ms == [] then 0 else EstimateMessage(ms[0]) + Estimate(ms[1..])
  }

  // ---------------------------------------------------------------------
  // What pruning must return
  // ---------------------------------------------------------------------

  function Budget(opts: Options): int {
    Truncate(opts.contextWindow as real * opts.pruneTargetRatio) - opts.maxTokens
  }

  /** Over budget, the thresholds shrink in proportion, down to fixed floors. */
  function Effective(opts: Options, history: seq<Message>): Options {
    var budget := Budget(opts);
    var tokens := Estimate(history);
    if opts.contextWindow > 0 && budget > 0 && tokens > budget then
      var over := tokens as real / budget as real;
      opts.(maxToolResultChars := Max(200, Truncate(opts.maxToolResultChars as real / over)),
            protectRecent := Max(1, Truncate(opts.protectRecent as real / over)),
            hardPruneAfter := Max(3, Truncate(opts.hardPruneAfter as real / over)))
    else opts
  }

  /** The number of assistant messages at index i or later. */
  function AssistantsFrom(ms: seq<Message>, i: nat): nat
    requires i <= |ms|
    decreases |ms| - i
  {
    if i == |ms| then 0 else (if ms[i].role.Assistant? then 1 else 0) + AssistantsFrom(ms, i + 1)
  }

  /** More than n assistant messages in all, and at least n of them after message i. */
  predicate OlderThan(ms: seq<Message>, i: nat, n: int)
    requires i < |ms|
  {
    AssistantsFrom(ms, 0) > n && AssistantsFrom(ms, i + 1) >= n
  }

  predicate UserUpTo(ms: seq<Message>, i: nat)
    requires i <= |ms|
  {
    exists k :: 0 <= k < i && ms[k].role.User?
  }

  predicate HasResults(m: Message) {
    exists b :: b in m.content && b.kind.ToolResult?
  }

  /** After the first user message; a history without one has no protected start. */
  predicate PastBootstrap(ms: seq<Message>, i: nat)
    requires i < |ms|
  {
    UserUpTo(ms, i) || !UserUpTo(ms, |ms|)
  }

  predicate Prunable(ms: seq<Message>, opts: Options, i: nat)
    requires i < |ms|
  {
    HasResults(ms[i]) && OlderThan(ms, i, opts.protectRecent) && PastBootstrap(ms, i)
  }

  const OMITTED_RESULT: string := "[Tool result omitted \U{00E2}\U{0080}\U{0094} older context]"

  function PruneBlock(b: Block, hard: bool, opts: Options): Block {
    if !b.kind.ToolResult? then b
    else if hard then MakeToolResult(b.toolUseId, OMITTED_RESULT)
    else if |b.content| > opts.maxToolResultChars then
      MakeToolResult(b.toolUseId, SoftPruned(b.content, opts.softPruneLines))
    else b
  }

  function PruneBlocks(blocks: seq<Block>, hard: bool, opts: Options): (r: seq<Block>)
    ensures |r| == |blocks| && forall i :: 0 <= i < |r| ==> r[i] == PruneBlock(blocks[i], hard, opts)
  {
    seq(|blocks|, i requires 0 <= i < |blocks| => PruneBlock(blocks[i], hard, opts))
  }

  function PrunedAt(ms: seq<Message>, opts: Options, i: nat): Message
    requires i < |ms|
  {
    if Prunable(ms, opts, i)
    then Message(ms[i].role, PruneBlocks(ms[i].content, OlderThan(ms, i, opts.hardPruneAfter), opts), "")
    else ms[i]
  }

  function Pruned(ms: seq<Message>, opts: Options): (r: seq<Message>)
    ensures |r| == |ms| && forall i :: 0 <= i < |r| ==> r[i] == PrunedAt(ms, Effective(opts, ms), i)
  {
    seq(|ms|, i requires 0 <= i < |ms| => PrunedAt(ms, Effective(opts, ms), i))
  }

  // ---------------------------------------------------------------------
  // Soft pruning of one result
  // ---------------------------------------------------------------------

  /** The length of the first line. */
  function LineEnd(s: string): (n: nat)
    ensures n <= |s| && (n < |s| ==> s[n] == '\n') && forall k :: 0 <= k < n ==> s[k] != '\n'
  {
    if s == "" || s[0] == '\n' then 0 else 1 + LineEnd(s[1..])
  }

  /** std::getline until the stream ends: a final newline starts no further line. */
  function Lines(s: string): seq<string> {
    if s == "" then []
    else if LineEnd(s) == |s| then [s]
    else [s[..LineEnd(s)]] + Lines(s[LineEnd(s) + 1..])
  }

  function Terminated(lines: seq<string>): string {
    if lines == [] then "" else Terminated(lines[..|lines| - 1]) + lines[|lines| - 1] + "\n"
  }

  function Separated(lines: seq<string>): string {
    if lines == [] then "" else Terminated(lines[..|lines| - 1]) + lines[|lines| - 1]
  }

  function Notice(size: nat, omitted: nat): string {
    "\n\U{00E2}\U{009A}\U{00A0} [Content truncated \U{00E2}\U{0080}\U{0094} original was " + QueueText.Decimal(size) +
    " chars. Use offset/limit params to read specific sections.]\n... [" + QueueText.Decimal(omitted) +
    " lines omitted] ...\n\n"
  }

  /** The first and last `keep` lines around a notice, unless that is everything anyway. A negative
      number keeps no line, and is counted as it is. */
  function SoftPruned(content: string, keep: int): string {
    var lines, kept := Lines(content), Max(0, keep);
    if |lines| <= keep * 2 then content
    else Terminated(lines[..kept]) + Notice(|content|, |lines| - keep * 2) + Separated(lines[|lines| - kept..])
  }

  // ---------------------------------------------------------------------
  // The loops
  // ---------------------------------------------------------------------

  lemma TerminatedSnoc(lines: seq<string>, k: nat)
    requires k < |lines|
    ensures Terminated(lines[..k + 1]) == Terminated(lines[..k]) + lines[k] + "\n"
    ensures k + 1 == |lines| ==> Separated(lines) == Terminated(lines[..k]) + lines[k]
  {
    assert lines[..k + 1][..k] == lines[..k];
  }

  lemma NoLines(lines: seq<string>)
    ensures Terminated(lines[..0]) == "" && (lines == [] ==> Separated(lines) == "")
  {
  }

  method SoftPrune(content: string, keep: int) returns (result: string)
    ensures result == SoftPruned(content, keep)
  {
    hide Notice, Lines, Terminated, Separated;
    var lines := Lines(content);
    var total := |lines|;
    if total <= keep * 2 {
      return content;
    }
    result := "";
    NoLines(lines);
    var i := 0;
    while i < keep
      invariant 0 <= i <= Max(0, keep) && result == Terminated(lines[..i])
    {
      TerminatedSnoc(lines, i);
      result := result + lines[i] + "\n";
      i := i + 1;
    }
    result := result + Notice(|content|, total - keep * 2);
    var tail := LastLines(lines, keep);
    result := result + tail;
  }

  method LastLines(lines: seq<string>, keep: int) returns (tail: string)
    requires keep * 2 < |lines|
    ensures tail == Separated(lines[|lines| - Max(0, keep)..])
  {
    hide Terminated, Separated;
    var total := |lines|;
    ghost var first := total - Max(0, keep);
    ghost var last := lines[first..];
    tail := "";
    NoLines(last);
    var i := total - keep;
    while i < total
      invariant first <= i && (keep >= 0 ==> i <= total)
      invariant tail == if i >= total then Separated(last) else Terminated(last[..i - first])
    {
      TerminatedSnoc(last, i - first);
      tail := tail + lines[i];
      if i < total - 1 {
        tail := tail + "\n";
      }
      i := i + 1;
    }
  }

  lemma {:induction false} AssistantsAntitone(ms: seq<Message>, i: nat, j: nat)
    requires i <= j <= |ms|
    ensures AssistantsFrom(ms, i) >= AssistantsFrom(ms, j)
    decreases j - i
  {
    if i < j {
      AssistantsAntitone(ms, i + 1, j);
    }
  }

  /** The positions of the assistant messages, each with the number of assistants from there on. */
  method AssistantIndices(ms: seq<Message>) returns (indices: seq<nat>)
    ensures |indices| == AssistantsFrom(ms, 0)
    ensures forall k :: 0 <= k < |indices| ==>
              indices[k] < |ms| && ms[indices[k]].role.Assistant? && AssistantsFrom(ms, indices[k]) == |indices| - k
  {
    indices := [];
    for i := 0 to |ms|
      invariant |indices| + AssistantsFrom(ms, i) == AssistantsFrom(ms, 0)
      invariant forall k :: 0 <= k < |indices| ==>
                  indices[k] < |ms| && ms[indices[k]].role.Assistant? &&
                  AssistantsFrom(ms, indices[k]) == AssistantsFrom(ms, 0) - k
    {
      if ms[i].role.Assistant? {
        indices := indices + [i];
      }
    }
  }

  /** The index before which messages are older than the last n assistant messages, -1 if none. */
  method Threshold(ms: seq<Message>, indices: seq<nat>, n: int) returns (threshold: int)
    requires n >= 1 && |indices| == AssistantsFrom(ms, 0)
    requires forall k :: 0 <= k < |indices| ==>
               indices[k] < |ms| && ms[indices[k]].role.Assistant? && AssistantsFrom(ms, indices[k]) == |indices| - k
    ensures forall i: nat :: i < |ms| ==> (OlderThan(ms, i, n) <==> threshold >= 0 && i < threshold)
  {
    threshold := -1;
    if |indices| > n {
      var t := indices[|indices| - n];
      threshold := t;
      forall i: nat | i < |ms| ensures OlderThan(ms, i, n) <==> i < t {
        if i < t {
          AssistantsAntitone(ms, i + 1, t);
        } else {
          AssistantsAntitone(ms, t + 1, i + 1);
        }
      }
    }
  }

  lemma EffectiveFloors(opts: Options, history: seq<Message>)
    requires opts.protectRecent >= 1 && opts.hardPruneAfter >= 1
    ensures Effective(opts, history).protectRecent >= 1 && Effective(opts, history).hardPruneAfter >= 1
  {
  }

  method HasResultBlocks(m: Message) returns (has: bool)
    ensures has <==> HasResults(m)
  {
    for j := 0 to |m.content|
      invariant forall k :: 0 <= k < j ==> !m.content[k].kind.ToolResult?
    {
      if m.content[j].kind.ToolResult? {
        return true;
      }
    }
    return false;
  }

  method Prune(history: seq<Message>, opts: Options) returns (result: seq<Message>)
    requires opts.protectRecent >= 1 && opts.hardPruneAfter >= 1
    ensures result == Pruned(history, opts)
  {
    hide PruneBlocks, OlderThan, Estimate, Budget, Truncate, HasResults;
    if history == [] {
      return history;
    }
    EffectiveFloors(opts, history);
    hide Effective;
    var effective := Effective(opts, history);
    var bootstrapEnd := -1;
    for i := 0 to |history|
      invariant bootstrapEnd == -1 && !UserUpTo(history, i)
    {
      if history[i].role.User? {
        bootstrapEnd := i;
        break;
      }
    }
    var indices := AssistantIndices(history);
    var protect := Threshold(history, indices, effective.protectRecent);
    var hard := Threshold(history, indices, effective.hardPruneAfter);
    result := [];
    for i := 0 to |history|
      invariant |result| == i && forall k :: 0 <= k < i ==> result[k] == PrunedAt(history, effective, k)
    {
      var msg := history[i];
      var hasResult := HasResultBlocks(msg);
      assert PastBootstrap(history, i) <==> i > bootstrapEnd;
      if !hasResult || protect < 0 || i >= protect || i <= bootstrapEnd {
        result := result + [msg];
        continue;
      }
      var content := PruneContent(msg.content, hard >= 0 && i < hard, effective);
      result := result + [Message(msg.role, content, "")];
    }
  }

  method PruneContent(blocks: seq<Block>, hard: bool, opts: Options) returns (content: seq<Block>)
    ensures content == PruneBlocks(blocks, hard, opts)
  {
    content := [];
    for i := 0 to |blocks|
      invariant |content| == i && forall k :: 0 <= k < i ==> content[k] == PruneBlock(blocks[k], hard, opts)
    {
      var block := blocks[i];
      if !block.kind.ToolResult? {
        content := content + [block];
      } else if hard {
        content := content + [MakeToolResult(block.toolUseId, OMITTED_RESULT)];
      } else if |block.content| > opts.maxToolResultChars {
        var soft := SoftPrune(block.content, opts.softPruneLines);
        content := content + [MakeToolResult(block.toolUseId, soft)];
      } else {
        content := content + [block];
      }
    }
  }

  // ---------------------------------------------------------------------
  // What pruning keeps
  // ---------------------------------------------------------------------

  ghost predicate SameBlockShape(a: Block, b: Block) {
    a.kind == b.kind && a.toolUseId == b.toolUseId && (!a.kind.ToolResult? ==> a == b)
  }

  /** Same role, same blocks in the same places, except for the texts of tool results. */
  ghost predicate SameShape(a: Message, b: Message) {
    && a.role == b.role && |a.content| == |b.content|
    && forall i :: 0 <= i < |a.content| ==> SameBlockShape(a.content[i], b.content[i])
  }

  ghost predicate SameShapes(a: seq<Message>, b: seq<Message>) {
    |a| == |b| && forall i :: 0 <= i < |a| ==> SameShape(a[i], b[i])
  }

  lemma PrunedShape(ms: seq<Message>, opts: Options)
    ensures SameShapes(ms, Pruned(ms, opts))
  {
  }

  lemma ShapeIds(a: Message, b: Message, open: set<string>)
    requires SameShape(a, b)
    ensures PendingIds(a) == PendingIds(b) && ResultIds(a.content) == ResultIds(b.content)
    ensures ResultsWithin(a, open) <==> ResultsWithin(b, open)
  {
    ShapeIdsBelow(a, b, open);
    ShapeIdsBelow(b, a, open);
  }

  lemma ShapeIdsBelow(a: Message, b: Message, open: set<string>)
    requires SameShape(a, b)
    ensures PendingIds(a) <= PendingIds(b) && ResultIds(a.content) <= ResultIds(b.content)
    ensures ResultsWithin(b, open) ==> ResultsWithin(a, open)
  {
    forall x | x in a.content
      ensures exists y :: y in b.content && SameBlockShape(x, y)
    {
      var i :| 0 <= i < |a.content| && a.content[i] == x;
      assert b.content[i] in b.content && SameBlockShape(x, b.content[i]);
    }
    forall id | id in PendingIds(a) ensures id in PendingIds(b) {
      var x :| x in a.content && x.kind.ToolUse? && x.id == id && x.id != "";
      var y :| y in b.content && SameBlockShape(x, y);
    }
    forall id | id in ResultIds(a.content) ensures id in ResultIds(b.content) {
      var x :| x in a.content && x.kind.ToolResult? && x.toolUseId == id && x.toolUseId != "";
      var y :| y in b.content && SameBlockShape(x, y);
    }
  }

  lemma {:induction false} ShapesPair(a: seq<Message>, b: seq<Message>, open: set<string>)
    requires SameShapes(a, b)
    ensures PairedFrom(open, a) <==> PairedFrom(open, b)
    decreases a
  {
    if a != [] {
      ShapeIds(a[0], b[0], open);
      assert NextResultIds(a[1..]) == NextResultIds(b[1..]) by {
        if |a| > 1 {
          ShapeIds(a[1], b[1], {});
        }
      }
      assert SameShapes(a[1..], b[1..]) by {
        forall i | 0 <= i < |a[1..]| ensures SameShape(a[1..][i], b[1..][i]) {
          assert SameShape(a[i + 1], b[i + 1]);
        }
      }
      ShapesPair(a[1..], b[1..], PendingIds(a[0]));
    }
  }

  /** Pruning can neither break nor mend the pairing of calls and results. */
  lemma PruneKeepsPairing(ms: seq<Message>, opts: Options)
    ensures Paired(Pruned(ms, opts)) <==> Paired(ms)
  {
    PrunedShape(ms, opts);
    ShapesPair(ms, Pruned(ms, opts), {});
    PairedIff(ms);
    PairedIff(Pruned(ms, opts));
  }

  /** A pruned text appears only in a message with results, past the first user message and
      before the last N assistant messages; every other message is returned as it was. */
  lemma PruneLeavesRecent(ms: seq<Message>, opts: Options, i: nat)
    requires i < |ms|
    ensures var n := Effective(opts, ms).protectRecent;
            Pruned(ms, opts)[i] != ms[i] ==>
              HasResults(ms[i]) && PastBootstrap(ms, i) && AssistantsFrom(ms, i + 1) >= n && AssistantsFrom(ms, 0) > n
  {
  }

  /** Everything up to the first user message is untouched. */
  lemma PruneKeepsStart(ms: seq<Message>, opts: Options, first: nat)
    requires first < |ms| && ms[first].role.User? && forall k :: 0 <= k < first ==> !ms[k].role.User?
    ensures Pruned(ms, opts)[..first + 1] == ms[..first + 1]
  {
    forall i | 0 <= i <= first ensures Pruned(ms, opts)[i] == ms[i] {
      PruneLeavesRecent(ms, opts, i);
      assert !UserUpTo(ms, i) && UserUpTo(ms, |ms|);
    }
  }

  /** The most recent N assistant messages and everything after the first of them are untouched. */
  lemma PruneKeepsTail(ms: seq<Message>, opts: Options, t: nat)
    requires t < |ms| && AssistantsFrom(ms, t) <= Effective(opts, ms).protectRecent && ms[t].role.Assistant?
    ensures Pruned(ms, opts)[t..] == ms[t..]
  {
    forall i | t <= i < |ms| ensures Pruned(ms, opts)[i] == ms[i] {
      PruneLeavesRecent(ms, opts, i);
      AssistantsAntitone(ms, t + 1, i + 1);
    }
  }

  /** Soft pruning leaves a text of few lines alone, and keeps the first and last lines of any other
      word for word, with the notice of its size and of the lines left out between them. */
  lemma SoftPruneKeepsEnds(content: string, keep: int)
    ensures var lines, kept, pruned := Lines(content), Max(0, keep), SoftPruned(content, keep);
            if |lines| <= keep * 2 then pruned == content
            else
              && Terminated(lines[..kept]) <= pruned
              && pruned[|Terminated(lines[..kept])|..] ==
                 Notice(|content|, |lines| - keep * 2) + Separated(lines[|lines| - kept..])
  {
    hide Notice, Lines, Terminated, Separated;
    var lines, kept := Lines(content), Max(0, keep);
    if |lines| > keep * 2 {
      Assoc(Terminated(lines[..kept]), Notice(|content|, |lines| - keep * 2), Separated(lines[|lines| - kept..]));
    }
  }

  // ---------------------------------------------------------------------
  // Compression
  // ---------------------------------------------------------------------

  datatype Strategy = Strategy(preserveRecent: bool, preserveToolCalls: bool, preserveSystem: bool, minMessages: int)

  function CompressOptions(ratio: real, target: int, s: Strategy): Options {
    Options(if s.preserveRecent then Max(3, Truncate(5.0 * ratio)) else 1,
            if s.preserveToolCalls then 5 else 2,
            Max(5, Truncate(10.0 * ratio)),
            if s.preserveToolCalls then Max(500, Truncate(2000.0 * ratio)) else 200,
            target * 4, 0, 1.0)
  }

  function Systems(ms: seq<Message>): seq<Message> {
    if ms == [] then [] else (if ms[0].role.System? then [ms[0]] else []) + Systems(ms[1..])
  }

  function NonSystems(ms: seq<Message>): seq<Message> {
    if ms == [] then [] else (if ms[0].role.System? then [] else [ms[0]]) + NonSystems(ms[1..])
  }

  function KeepFrom(ms: seq<Message>, keep: int): (start: nat)
    ensures keep >= 0 ==> start <= |ms|
  {
    Max(0, |ms| - keep)
  }

  function Compacted(ms: seq<Message>, keep: int, preserveSystem: bool): seq<Message> {
    var start := KeepFrom(ms, keep);
    var recent := if start <= |ms| then ms[start..] else [];
    if preserveSystem then Systems(ms) + NonSystems(recent) else recent
  }

  /** An empty estimate with a negative target would divide by zero in the source. */
  predicate Compressible(ms: seq<Message>, target: int) {
    Estimate(ms) > 0 || target >= 0
  }

  function Ratio(target: int, tokens: nat): real {
    if tokens == 0 then 0.0 else target as real / tokens as real
  }

  /** How many messages a cut keeps. */
  function Keep(count: nat, ratio: real, minMessages: int): int {
    Max(minMessages, Truncate(count as real * ratio))
  }

  predicate OverTarget(ms: seq<Message>, target: int) {
    ms != [] && Estimate(ms) > target
  }

  function PrunedFor(ms: seq<Message>, target: int, s: Strategy): seq<Message> {
    Pruned(ms, CompressOptions(Ratio(target, Estimate(ms)), target, s))
  }

  predicate Cuts(ms: seq<Message>, target: int, s: Strategy) {
    var pruned := PrunedFor(ms, target, s);
    OverTarget(ms, target) && Estimate(pruned) > target && |pruned| > s.minMessages
  }

  function Compressed(ms: seq<Message>, target: int, s: Strategy): seq<Message>
    requires Compressible(ms, target)
  {
    if !OverTarget(ms, target) then ms
    else
      var pruned := PrunedFor(ms, target, s);
      if Cuts(ms, target, s) then
        Compacted(pruned, Keep(|pruned|, Ratio(target, Estimate(ms)), s.minMessages), s.preserveSystem)
      else pruned
  }

  lemma CompressOptionFloors(ratio: real, target: int, s: Strategy)
    ensures CompressOptions(ratio, target, s).protectRecent >= 1
    ensures CompressOptions(ratio, target, s).hardPruneAfter >= 1
  {
  }

  method Compress(messages: seq<Message>, target: int, s: Strategy) returns (result: seq<Message>)
    requires Compressible(messages, target)
    ensures result == Compressed(messages, target, s)
  {
    hide Ratio, CompressOptions, Pruned, Estimate, Keep, Compacted;
    if messages == [] {
      return messages;
    }
    var tokens := Estimate(messages);
    if tokens <= target {
      return messages;
    }
    var ratio := Ratio(target, tokens);
    CompressOptionFloors(ratio, target, s);
    result := Prune(messages, CompressOptions(ratio, target, s));
    if Estimate(result) > target && |result| > s.minMessages {
      result := Compact(result, Keep(|result|, ratio, s.minMessages), s.preserveSystem);
    }
  }

  method Compact(ms: seq<Message>, keep: int, preserveSystem: bool) returns (compacted: seq<Message>)
    ensures compacted == Compacted(ms, keep, preserveSystem)
  {
    compacted := [];
    if preserveSystem {
      compacted := CollectSystems(ms);
    }
    var start := Max(0, |ms| - keep);
    var tail: seq<Message> := [];
    if start <= |ms| {
      tail := CollectFrom(ms, start, preserveSystem);
    }
    compacted := compacted + tail;
  }

  method CollectSystems(ms: seq<Message>) returns (systems: seq<Message>)
    ensures systems == Systems(ms)
  {
    systems := [];
    Whole(ms);
    for i := 0 to |ms|
      invariant systems + Systems(ms[i..]) == Systems(ms)
    {
      SplitAt(ms, i);
      Assoc(systems, if ms[i].role.System? then [ms[i]] else [], Systems(ms[i + 1..]));
      if ms[i].role.System? {
        systems := systems + [ms[i]];
      }
    }
  }

  method CollectFrom(ms: seq<Message>, start: nat, preserveSystem: bool) returns (tail: seq<Message>)
    requires start <= |ms|
    ensures tail == if preserveSystem then NonSystems(ms[start..]) else ms[start..]
  {
    tail := [];
    Whole(ms);
    for i := start to |ms|
      invariant tail + Chosen(ms[i..], preserveSystem) == Chosen(ms[start..], preserveSystem)
    {
      SplitAt(ms, i);
      Assoc(tail, ChosenOne(ms[i], preserveSystem), Chosen(ms[i + 1..], preserveSystem));
      if !preserveSystem || !ms[i].role.System? {
        tail := tail + [ms[i]];
      }
    }
    ChosenIs(ms[start..]);
  }

  function ChosenOne(m: Message, preserveSystem: bool): seq<Message> {
    if preserveSystem && m.role.System? then [] else [m]
  }

  function Chosen(ms: seq<Message>, preserveSystem: bool): seq<Message> {
    if ms == [] then [] else ChosenOne(ms[0], preserveSystem) + Chosen(ms[1..], preserveSystem)
  }

  lemma {:induction false} ChosenIs(ms: seq<Message>)
    ensures Chosen(ms, true) == NonSystems(ms) && Chosen(ms, false) == ms
  {
    if ms != [] {
      ChosenIs(ms[1..]);
    }
  }

  method CompressWithStats(messages: seq<Message>, target: int, s: Strategy)
      returns (result: seq<Message>, messagesRemoved: int, tokensSaved: int)
    requires Compressible(messages, target)
    ensures result == Compressed(messages, target, s)
    ensures messagesRemoved == |messages| - |result| && messagesRemoved >= 0
    ensures tokensSaved == Estimate(messages) - Estimate(result)
  {
    var tokensBefore := Estimate(messages);
    var countBefore := |messages|;
    result := Compress(messages, target, s);
    messagesRemoved := countBefore - |result|;
    tokensSaved := tokensBefore - Estimate(result);
    CompressRemoves(messages, target, s);
  }

  lemma {:induction false} SystemSplit(ms: seq<Message>)
    ensures |Systems(ms)| + |NonSystems(ms)| == |ms|
  {
    if ms != [] {
      SystemSplit(ms[1..]);
    }
  }

  lemma {:induction false} SystemsConcat(a: seq<Message>, b: seq<Message>)
    ensures NonSystems(a + b) == NonSystems(a) + NonSystems(b)
    ensures Systems(a + b) == Systems(a) + Systems(b)
  {
    if a == [] {
      assert a + b == b;
    } else {
      Uncons(a, b);
      SystemsConcat(a[1..], b);
      Assoc(if a[0].role.System? then [] else [a[0]], NonSystems(a[1..]), NonSystems(b));
      Assoc(if a[0].role.System? then [a[0]] else [], Systems(a[1..]), Systems(b));
    }
  }

  lemma {:induction false} SystemsOfSystems(ms: seq<Message>)
    ensures Systems(Systems(ms)) == Systems(ms) && NonSystems(Systems(ms)) == []
    ensures NonSystems(NonSystems(ms)) == NonSystems(ms) && Systems(NonSystems(ms)) == []
  {
    if ms != [] {
      SystemsOfSystems(ms[1..]);
      if ms[0].role.System? {
        Cons(ms[0], Systems(ms[1..]));
        assert NonSystems(ms) == NonSystems(ms[1..]);
      } else {
        Cons(ms[0], NonSystems(ms[1..]));
        assert Systems(ms) == Systems(ms[1..]);
      }
    }
  }

  /** Compacting keeps every system message and a suffix of the others, both in order. */
  lemma CompactedParts(ms: seq<Message>, keep: int)
    ensures var r := Compacted(ms, keep, true);
            && Systems(r) == Systems(ms) && r == Systems(ms) + NonSystems(r)
            && exists older :: NonSystems(ms) == older + NonSystems(r)
  {
    var start := KeepFrom(ms, keep);
    var recent := if start <= |ms| then ms[start..] else [];
    var n := if start <= |ms| then start else |ms|;
    assert ms == ms[..n] + recent;
    SystemsConcat(ms[..n], recent);
    SystemsConcat(Systems(ms), NonSystems(recent));
    SystemsOfSystems(ms);
    SystemsOfSystems(recent);
    assert NonSystems(Compacted(ms, keep, true)) == NonSystems(recent);
    assert Systems(Compacted(ms, keep, true)) == Systems(ms);
    assert NonSystems(ms) == NonSystems(ms[..n]) + NonSystems(recent);
  }

  lemma CompactedShorter(ms: seq<Message>, keep: int, preserveSystem: bool)
    ensures |Compacted(ms, keep, preserveSystem)| <= |ms|
  {
    if preserveSystem {
      CompactedParts(ms, keep);
      SystemSplit(ms);
      SystemSplit(Compacted(ms, keep, true));
    }
  }

  /** Compression never reports a negative number of removed messages. */
  lemma CompressRemoves(ms: seq<Message>, target: int, s: Strategy)
    requires Compressible(ms, target)
    ensures |Compressed(ms, target, s)| <= |ms|
  {
    hide Compacted, Ratio, Keep, CompressOptions;
    var pruned := PrunedFor(ms, target, s);
    CompactedShorter(pruned, Keep(|pruned|, Ratio(target, Estimate(ms)), s.minMessages), s.preserveSystem);
  }

  /** Over the target, the result is the pruned history, or, when it is cut and system messages
      are kept, the pruned history's system messages followed by a suffix of its other messages. */
  lemma CompressedParts(ms: seq<Message>, target: int, s: Strategy)
    requires Compressible(ms, target) && OverTarget(ms, target) && s.preserveSystem
    ensures var r, pruned := Compressed(ms, target, s), PrunedFor(ms, target, s);
            && SameShapes(ms, pruned)
            && (!Cuts(ms, target, s) ==> r == pruned)
            && (Cuts(ms, target, s) ==>
                  && r == Systems(pruned) + NonSystems(r)
                  && exists older :: NonSystems(pruned) == older + NonSystems(r))
  {
    hide Ratio, Keep, CompressOptions, Pruned, Estimate;
    var pruned := PrunedFor(ms, target, s);
    PrunedShape(ms, CompressOptions(Ratio(target, Estimate(ms)), target, s));
    CompactedParts(pruned, Keep(|pruned|, Ratio(target, Estimate(ms)), s.minMessages));
  }
}

/** trim_anthropic_replay_to_current_turn and the web-search replay hint. */
module ReplayTrim {
  import opened Seqs
  import opened Messages
  import opened TurnCollapse

  predicate HasWords(m: Message) {
    m.role.User? && exists b :: b in m.content && !b.kind.ToolResult?
  }

  function LeadingSystem(ms: seq<Message>): (n: nat)
    ensures n <= |ms|
    ensures forall i :: 0 <= i < n ==> ms[i].role.System?
    ensures n < |ms| ==> !ms[n].role.System?
  {
    if ms != [] && ms[0].role.System? then 1 + LeadingSystem(ms[1..]) else 0
  }

  /** t is where the current turn starts: the last message at or after `from` in which a user speaks. */
  predicate IsTurnStart(ms: seq<Message>, from: nat, t: nat) {
    from <= t < |ms| && HasWords(ms[t]) && forall i :: t < i < |ms| ==> !HasWords(ms[i])
  }

  predicate TrimApplies(ms: seq<Message>) {
    ms != [] && OnlyResults(ms[|ms| - 1]) && exists t :: LeadingSystem(ms) <= t < |ms| && HasWords(ms[t])
  }

  /** trimmed is what the trim step must return for ms. */
  ghost predicate IsTrimmed(ms: seq<Message>, trimmed: seq<Message>) {
    if TrimApplies(ms) then
      exists t: nat :: IsTurnStart(ms, LeadingSystem(ms), t) && trimmed == ms[..LeadingSystem(ms)] + ms[t..]
    else trimmed == ms
  }

  lemma TrimmedUnique(ms: seq<Message>, a: seq<Message>, b: seq<Message>)
    requires IsTrimmed(ms, a) && IsTrimmed(ms, b)
    ensures a == b
  {
    if TrimApplies(ms) {
      var s: nat :| IsTurnStart(ms, LeadingSystem(ms), s) && a == ms[..LeadingSystem(ms)] + ms[s..];
      var t: nat :| IsTurnStart(ms, LeadingSystem(ms), t) && b == ms[..LeadingSystem(ms)] + ms[t..];
      assert s == t;
    }
  }

  method HasNonToolResultBlocks(m: Message) returns (has: bool)
    ensures has <==> HasWords(m)
  {
    if !m.role.User? {
      return false;
    }
    for i := 0 to |m.content|
      invariant forall k :: 0 <= k < i ==> m.content[k].kind.ToolResult?
    {
      if !m.content[i].kind.ToolResult? {
        return true;
      }
    }
    return false;
  }

  method TrimReplayToCurrentTurn(messages: seq<Message>) returns (trimmed: seq<Message>)
    ensures IsTrimmed(messages, trimmed)
  {
    if messages == [] {
      return messages;
    }
    var replaying := HasOnlyToolResultBlocks(messages[|messages| - 1]);
    if !replaying {
      return messages;
    }
    var firstNonSystem := 0;
    while firstNonSystem < |messages| && messages[firstNonSystem].role.System?
      invariant 0 <= firstNonSystem <= |messages|
      invariant forall i :: 0 <= i < firstNonSystem ==> messages[i].role.System?
    {
      firstNonSystem := firstNonSystem + 1;
    }
    LeadingSystemIs(messages, firstNonSystem);
    var turnStart := |messages|;
    var i := |messages|;
    while i > firstNonSystem
      invariant firstNonSystem <= i <= |messages| == turnStart
      invariant forall k :: i <= k < |messages| ==> !HasWords(messages[k])
    {
      i := i - 1;
      var speaks := HasNonToolResultBlocks(messages[i]);
      if speaks {
        turnStart := i;
        break;
      }
    }
    if turnStart >= |messages| {
      return messages;
    }
    assert IsTurnStart(messages, LeadingSystem(messages), turnStart);
    trimmed := messages[..firstNonSystem] + messages[turnStart..];
  }

  lemma {:induction false} LeadingSystemIs(ms: seq<Message>, n: nat)
    requires n <= |ms| && (forall i :: 0 <= i < n ==> ms[i].role.System?) && (n < |ms| ==> !ms[n].role.System?)
    ensures LeadingSystem(ms) == n
  {
    if n > 0 {
      forall i | 0 <= i < n - 1 ensures ms[1..][i].role.System? {
        assert ms[1..][i] == ms[i + 1];
      }
      LeadingSystemIs(ms[1..], n - 1);
    }
  }

  // ---------------------------------------------------------------------
  // Laws of trimming
  // ---------------------------------------------------------------------

  lemma {:induction false} ForwardSuffix(ms: seq<Message>, k: nat)
    requires ForwardFrom(ms) && k <= |ms|
    ensures ForwardFrom(ms[k..])
  {
    if k > 0 {
      ForwardSuffix(ms[1..], k - 1);
      assert ms[1..][k - 1..] == ms[k..];
    } else {
      Whole(ms);
    }
  }

  lemma {:induction false} SystemThenForward(systems: seq<Message>, rest: seq<Message>)
    requires forall m :: m in systems ==> m.role.System?
    requires ForwardFrom(rest)
    ensures ForwardFrom(systems + rest)
  {
    if systems == [] {
      assert systems + rest == rest;
    } else {
      SystemThenForward(systems[1..], rest);
      Uncons(systems, rest);
    }
  }

  lemma TrimForward(ms: seq<Message>, trimmed: seq<Message>)
    requires IsTrimmed(ms, trimmed) && ForwardFrom(ms)
    ensures ForwardFrom(trimmed)
  {
    if TrimApplies(ms) {
      var n := LeadingSystem(ms);
      var t: nat :| IsTurnStart(ms, n, t) && trimmed == ms[..n] + ms[t..];
      ForwardSuffix(ms, t);
      SystemThenForward(ms[..n], ms[t..]);
    }
  }

  lemma TrimNoAdjacent(ms: seq<Message>, trimmed: seq<Message>)
    requires IsTrimmed(ms, trimmed) && NoAdjacent(User, ms)
    ensures NoAdjacent(User, trimmed)
  {
    if TrimApplies(ms) {
      var n := LeadingSystem(ms);
      var t: nat :| IsTurnStart(ms, n, t) && trimmed == ms[..n] + ms[t..];
      forall i: nat | i + 1 < |trimmed| ensures !(trimmed[i].role.User? && trimmed[i + 1].role.User?) {
        if i >= n {
          assert trimmed[i] == ms[t + (i - n)] && trimmed[i + 1] == ms[(t + (i - n)) + 1];
        } else {
          assert trimmed[i] == ms[i];
        }
      }
    }
  }

  /** A message that answers a call is left without its caller exactly when the trim starts the
      turn at a user message that mixes words with a tool result. */
  ghost predicate StrandsAnswer(ms: seq<Message>) {
    TrimApplies(ms) &&
    exists t: nat :: IsTurnStart(ms, LeadingSystem(ms), t) && exists b :: b in ms[t].content && b.kind.ToolResult?
  }

  lemma {:induction false} SystemThenPaired(systems: seq<Message>, rest: seq<Message>)
    requires forall m :: m in systems ==> m.role.System?
    ensures PairedFrom({}, systems + rest) <==> PairedFrom({}, rest)
  {
    if systems == [] {
      assert systems + rest == rest;
    } else {
      SystemThenPaired(systems[1..], rest);
      Uncons(systems, rest);
    }
  }

  lemma TrimPairedIff(ms: seq<Message>, trimmed: seq<Message>)
    requires IsTrimmed(ms, trimmed) && Paired(ms)
    ensures Paired(trimmed) <==> !StrandsAnswer(ms)
  {
    hide Paired, HasWords, PairedFrom;
    PairedIff(ms);
    PairedIff(trimmed);
    if TrimApplies(ms) {
      var n := LeadingSystem(ms);
      var t: nat :| IsTurnStart(ms, n, t) && trimmed == ms[..n] + ms[t..];
      SystemThenPaired(ms[..n], ms[t..]);
      PairedTailIff(ms, t);
      assert forall s: nat :: IsTurnStart(ms, n, s) ==> s == t;
      assert ResultsWithin(ms[t], {}) <==> !exists b :: b in ms[t].content && b.kind.ToolResult? by {
        WordsAreUser(ms[t]);
      }
    }
  }

  lemma WordsAreUser(m: Message)
    requires HasWords(m)
    ensures m.role.User?
  {
  }

  /** A tail of a paired list is paired exactly when its first message answers nothing. */
  lemma PairedTailIff(ms: seq<Message>, t: nat)
    requires Paired(ms) && t < |ms|
    ensures PairedFrom({}, ms[t..]) <==> ResultsWithin(ms[t], {})
  {
    SplitAt(ms, t);
    PairedFromSuffix(ms, t + 1);
    HeadAnsweredAt(ms, t);
    assert CallsAnswered(ms, t);
    assert PairedFrom(PendingIds(ms[t]), ms[t + 1..]);
  }

  lemma {:induction false} NoWordsAfter(ms: seq<Message>)
    requires forall m :: m in ms ==> !HasWords(m)
    ensures UserWords(ms) == []
  {
    if ms != [] {
      if ms[0].role.User? {
        assert !HasWords(ms[0]);
        OnlyResultsNoWords(ms[0].content);
      }
      NoWordsAfter(ms[1..]);
    }
  }

  lemma WordsPresent(m: Message)
    requires HasWords(m)
    ensures WordsOfMessage(m) != []
  {
    var b :| b in m.content && !b.kind.ToolResult?;
    var i :| 0 <= i < |m.content| && m.content[i] == b;
    assert m.content == m.content[..i] + ([b] + m.content[i + 1..]);
    WordsConcat(m.content[..i], [b] + m.content[i + 1..]);
    Cons(b, m.content[i + 1..]);
  }

  /** Trimming keeps the words of the last user message that has any, and drops the earlier ones. */
  lemma TrimUserWords(ms: seq<Message>, trimmed: seq<Message>)
    requires IsTrimmed(ms, trimmed)
    ensures exists earlier :: UserWords(ms) == earlier + UserWords(trimmed)
    ensures UserWords(trimmed) == [] ==> UserWords(ms) == []
  {
    if TrimApplies(ms) {
      var n := LeadingSystem(ms);
      var t: nat :| IsTurnStart(ms, n, t) && trimmed == ms[..n] + ms[t..];
      NoWordsAfter(ms[..n]);
      UserWordsConcat(ms[..n], ms[t..]);
      assert [] + UserWords(ms[t..]) == UserWords(ms[t..]);
      assert ms == ms[..t] + ms[t..];
      UserWordsConcat(ms[..t], ms[t..]);
      SplitAt(ms, t);
      WordsPresent(ms[t]);
    } else {
      assert UserWords(ms) == [] + UserWords(trimmed);
    }
  }

  // ---------------------------------------------------------------------
  // The web-search replay hint
  // ---------------------------------------------------------------------

  const REPLAY_HINT: string :=
    "[web_search replay hint] Use the existing web_search tool results already present in this conversation. " +
    "Do not run another web search or output a raw search-results dump. Synthesize the provided results " +
    "into a concise answer that focuses on the most relevant matches for the user's request."

  function MessageText(blocks: seq<Block>): string {
    if blocks == [] then ""
    else (if blocks[0].kind.Text? || blocks[0].kind.Thinking? then blocks[0].text else "") + MessageText(blocks[1..])
  }

  predicate Contains(s: string, sub: string) {
    sub <= s || (s != "" && Contains(s[1..], sub))
  }

  predicate Hinted(ms: seq<Message>, hint: string) {
    exists m :: m in ms && m.role.System? && Contains(MessageText(m.content), hint)
  }

  /** The names of the calls in `blocks` that the ids in `answered` answer. */
  function AnsweredNames(blocks: seq<Block>, answered: set<string>): set<string> {
    set b | b in blocks && b.kind.ToolUse? && b.id != "" && b.id in answered && b.name != "" :: b.name
  }

  function NamesBackward(ms: seq<Message>, answered: set<string>): set<string> {
    if ms == [] then {}
    else
      var last := ms[|ms| - 1];
      var names := if last.role.Assistant? then AnsweredNames(last.content, answered) else {};
      if names != {} then names else NamesBackward(ms[..|ms| - 1], answered)
  }

  function TrailingReplayNames(ms: seq<Message>): set<string> {
    if |ms| < 2 || !ms[|ms| - 1].role.User? || ResultIds(ms[|ms| - 1].content) == {} then {}
    else NamesBackward(ms[..|ms| - 1], ResultIds(ms[|ms| - 1].content))
  }

  function AddHint(ms: seq<Message>, names: set<string>, hint: string): seq<Message> {
    if "web_search" !in names || Hinted(ms, hint) then ms
    else ms[..LeadingSystem(ms)] + [TextMessage(System, hint)] + ms[LeadingSystem(ms)..]
  }

  method CollectTrailingReplayToolNames(messages: seq<Message>) returns (names: set<string>)
    ensures names == TrailingReplayNames(messages)
  {
    if |messages| < 2 {
      return {};
    }
    var last := messages[|messages| - 1];
    if !last.role.User? {
      return {};
    }
    var answered: set<string> := {};
    for i := 0 to |last.content|
      invariant answered == ResultIds(last.content[..i])
    {
      SplitAt(last.content, i);
      if last.content[i].kind.ToolResult? && last.content[i].toolUseId != "" {
        answered := answered + {last.content[i].toolUseId};
      }
    }
    Whole(last.content);
    if answered == {} {
      return {};
    }
    var n := |messages| - 1;
    while n > 0
      invariant 0 <= n < |messages|
      invariant NamesBackward(messages[..n], answered) == NamesBackward(messages[..|messages| - 1], answered)
    {
      n := n - 1;
      var m := messages[n];
      assert messages[..n + 1][..n] == messages[..n] && messages[..n + 1][n] == m;
      if !m.role.Assistant? {
        continue;
      }
      names := {};
      for i := 0 to |m.content|
        invariant names == AnsweredNames(m.content[..i], answered)
      {
        SplitAt(m.content, i);
        var b := m.content[i];
        if b.kind.ToolUse? && b.id != "" && b.id in answered && b.name != "" {
          names := names + {b.name};
        }
      }
      Whole(m.content);
      if names != {} {
        return;
      }
    }
    return {};
  }

  method MaybeAddReplayInstruction(messages: seq<Message>, names: set<string>, hint: string)
    returns (hinted: seq<Message>)
    ensures hinted == AddHint(messages, names, hint)
  {
    if "web_search" !in names {
      return messages;
    }
    for i := 0 to |messages|
      invariant forall k :: 0 <= k < i ==>
                  !(messages[k].role.System? && Contains(MessageText(messages[k].content), hint))
    {
      if messages[i].role.System? && Contains(MessageText(messages[i].content), hint) {
        return messages;
      }
    }
    var pos := 0;
    while pos < |messages| && messages[pos].role.System?
      invariant 0 <= pos <= |messages|
      invariant forall i :: 0 <= i < pos ==> messages[i].role.System?
    {
      pos := pos + 1;
    }
    LeadingSystemIs(messages, pos);
    hinted := messages[..pos] + [TextMessage(System, hint)] + messages[pos..];
  }

  lemma SuffixAfterSystem(ms: seq<Message>)
    requires ForwardFrom(ms)
    ensures ForwardFrom(ms[LeadingSystem(ms)..])
  {
    ForwardSuffix(ms, LeadingSystem(ms));
  }

  lemma AddHintForward(ms: seq<Message>, names: set<string>, hint: string)
    requires ForwardFrom(ms)
    ensures ForwardFrom(AddHint(ms, names, hint))
  {
    var n := LeadingSystem(ms);
    SuffixAfterSystem(ms);
    SystemThenForward(ms[..n] + [TextMessage(System, hint)], ms[n..]);
  }

  lemma AddHintNoAdjacent(ms: seq<Message>, names: set<string>, hint: string)
    requires NoAdjacent(User, ms)
    ensures NoAdjacent(User, AddHint(ms, names, hint))
  {
    var n := LeadingSystem(ms);
    var r := AddHint(ms, names, hint);
    if r != ms {
      forall i: nat | i + 1 < |r| ensures !(r[i].role.User? && r[i + 1].role.User?) {
        if i > n {
          assert r[i] == ms[i - 1] && r[i + 1] == ms[(i - 1) + 1];
        } else {
          assert r[i].role.System?;
        }
      }
    }
  }

  lemma AddHintUserWords(ms: seq<Message>, names: set<string>, hint: string)
    ensures UserWords(AddHint(ms, names, hint)) == UserWords(ms)
  {
    var n := LeadingSystem(ms);
    var front := ms[..n] + [TextMessage(System, hint)];
    assert ms == ms[..n] + ms[n..];
    UserWordsConcat(ms[..n], ms[n..]);
    UserWordsConcat(front, ms[n..]);
    NoWordsAfter(front);
    NoWordsAfter(ms[..n]);
  }

  /** However often the step runs on its own output, at most one hint is added. */
  lemma AddHintOnce(ms: seq<Message>, names: set<string>, again: set<string>, hint: string)
    requires hint != ""
    ensures "web_search" in names ==> Hinted(AddHint(ms, names, hint), hint)
    ensures "web_search" in names ==> AddHint(AddHint(ms, names, hint), again, hint) == AddHint(ms, names, hint)
  {
    if "web_search" in names && !Hinted(ms, hint) {
      var m := TextMessage(System, hint);
      assert AddHint(ms, names, hint)[LeadingSystem(ms)] == m;
      assert MessageText(m.content[1..]) == "";
      assert MessageText(m.content) == hint + "";
      assert MessageText(m.content) == hint;
    }
  }
}

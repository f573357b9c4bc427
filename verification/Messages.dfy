/** The conversation data model: content blocks, messages, and what it means for tool calls and tool
    results to be paired. Pairing is stated message by message, as a reader would check it, and a
    second time head first, as the recursive transformations need it; the two are shown equal, and
    the flat views say what a transformation may move or lose. */
module Messages {
  import opened Seqs

  datatype BlockKind = Text | Thinking | ToolUse | ToolResult | OtherKind(name: string)

  /** One content block; like the source's struct it carries every field, whatever its kind.
      `input` is the serialised JSON argument, "" standing for null. */
  datatype Block = Block(kind: BlockKind, text: string, id: string, name: string, input: string,
                         toolUseId: string, content: string)

  datatype Role = System | User | Assistant | OtherRole(name: string)

  datatype Message = Message(role: Role, content: seq<Block>, timestamp: string)

  function MakeText(text: string): Block {
    Block(Text, text, "", "", "", "", "")
  }

  function MakeToolUse(id: string, name: string, input: string): Block {
    Block(ToolUse, "", id, name, input, "", "")
  }

  function MakeToolResult(toolUseId: string, content: string): Block {
    Block(ToolResult, "", "", "", "", toolUseId, content)
  }

  /** The two-argument constructor of the source: empty text gives an empty content list. */
  function TextMessage(role: Role, text: string): Message {
    Message(role, if text == "" then [] else [MakeText(text)], "")
  }

  // ---------------------------------------------------------------------
  // Ids
  // ---------------------------------------------------------------------

  /** The non-empty ids of the tool calls in a block list. */
  function ToolUseIds(blocks: seq<Block>): set<string> {
    set b | b in blocks && b.kind.ToolUse? && b.id != "" :: b.id
  }

  /** The non-empty ids that the tool results in a block list answer. */
  function ResultIds(blocks: seq<Block>): set<string> {
    set b | b in blocks && b.kind.ToolResult? && b.toolUseId != "" :: b.toolUseId
  }

  /** The tool calls a message leaves to be answered by the next one. */
  function PendingIds(m: Message): set<string> {
    if m.role.Assistant? then ToolUseIds(m.content) else {}
  }

  /** The ids answered by the first message, if it is a user message. */
  function NextResultIds(ms: seq<Message>): set<string> {
    if ms != [] && ms[0].role.User? then ResultIds(ms[0].content) else {}
  }

  // ---------------------------------------------------------------------
  // Pairing, message by message
  // ---------------------------------------------------------------------

  /** Every tool call of message i is answered by the user message right after it. */
  ghost predicate CallsAnswered(ms: seq<Message>, i: nat)
    requires i < |ms|
  {
    forall b :: b in ms[i].content && ms[i].role.Assistant? && b.kind.ToolUse? && b.id != "" ==>
      i + 1 < |ms| && ms[i + 1].role.User? && AnswerIn(ms[i + 1].content, b.id)
  }

  ghost predicate AnswerIn(blocks: seq<Block>, id: string) {
    exists r :: r in blocks && r.kind.ToolResult? && r.toolUseId == id
  }

  /** Every tool result of user message i answers a call of the assistant message right before it. */
  ghost predicate ResultsCalled(ms: seq<Message>, i: nat)
    requires i < |ms|
  {
    forall r :: r in ms[i].content && ms[i].role.User? && r.kind.ToolResult? ==>
      i > 0 && ms[i - 1].role.Assistant? && r.toolUseId != "" && CallIn(ms[i - 1].content, r.toolUseId)
  }

  ghost predicate CallIn(blocks: seq<Block>, id: string) {
    exists b :: b in blocks && b.kind.ToolUse? && b.id == id
  }

  ghost predicate ForwardPaired(ms: seq<Message>) {
    forall i: nat :: i < |ms| ==> CallsAnswered(ms, i)
  }

  ghost predicate Paired(ms: seq<Message>) {
    && ForwardPaired(ms)
    && forall i: nat :: i < |ms| ==> ResultsCalled(ms, i)
  }

  ghost predicate NoAdjacent(role: Role, ms: seq<Message>) {
    forall i: nat :: i + 1 < |ms| ==> !(ms[i].role == role && ms[i + 1].role == role)
  }

  // ---------------------------------------------------------------------
  // The same notions, head first, as the proofs need them
  // ---------------------------------------------------------------------

  predicate HeadAnswered(ms: seq<Message>)
    requires ms != []
  {
    PendingIds(ms[0]) <= NextResultIds(ms[1..])
  }

  predicate ResultsWithin(m: Message, ids: set<string>) {
    m.role.User? ==> forall r :: r in m.content && r.kind.ToolResult? ==> r.toolUseId in ids
  }

  predicate ForwardFrom(ms: seq<Message>) {
    ms == [] || (HeadAnswered(ms) && ForwardFrom(ms[1..]))
  }

  /** Two-way pairing of a list that follows a message whose open calls are `open`. */
  predicate PairedFrom(open: set<string>, ms: seq<Message>)
    decreases ms
  {
    ms == [] || (HeadAnswered(ms) && ResultsWithin(ms[0], open) && PairedFrom(PendingIds(ms[0]), ms[1..]))
  }

  lemma HeadAnsweredAt(ms: seq<Message>, i: nat)
    requires i < |ms|
    ensures HeadAnswered(ms[i..]) <==> CallsAnswered(ms, i)
  {
    var t := ms[i..];
    assert t[0] == ms[i];
    assert i + 1 < |ms| ==> t[1..] != [] && t[1..][0] == ms[i + 1];
    if HeadAnswered(t) {
      forall b | b in ms[i].content && ms[i].role.Assistant? && b.kind.ToolUse? && b.id != ""
        ensures i + 1 < |ms| && ms[i + 1].role.User? && AnswerIn(ms[i + 1].content, b.id)
      {
        assert b.id in PendingIds(t[0]);
        assert b.id in NextResultIds(t[1..]);
      }
    }
    if CallsAnswered(ms, i) {
      forall id | id in PendingIds(t[0]) ensures id in NextResultIds(t[1..]) {
        var b :| b in ms[i].content && b.kind.ToolUse? && b.id == id && b.id != "";
        assert AnswerIn(ms[i + 1].content, b.id);
        var r :| r in ms[i + 1].content && r.kind.ToolResult? && r.toolUseId == id;
      }
    }
  }

  lemma ResultsWithinAt(ms: seq<Message>, i: nat)
    requires 0 < i < |ms|
    ensures ResultsWithin(ms[i], PendingIds(ms[i - 1])) <==> ResultsCalled(ms, i)
  {
    if ResultsWithin(ms[i], PendingIds(ms[i - 1])) {
      forall r | r in ms[i].content && ms[i].role.User? && r.kind.ToolResult?
        ensures ms[i - 1].role.Assistant? && r.toolUseId != "" && CallIn(ms[i - 1].content, r.toolUseId)
      {
        assert r.toolUseId in PendingIds(ms[i - 1]);
      }
    }
    if ResultsCalled(ms, i) {
      forall r | r in ms[i].content && ms[i].role.User? && r.kind.ToolResult?
        ensures r.toolUseId in PendingIds(ms[i - 1])
      {
        assert CallIn(ms[i - 1].content, r.toolUseId);
        var b :| b in ms[i - 1].content && b.kind.ToolUse? && b.id == r.toolUseId;
        assert b.id in ToolUseIds(ms[i - 1].content);
      }
    }
  }

  lemma {:induction false} ForwardFromSuffix(ms: seq<Message>, k: nat)
    requires k <= |ms|
    ensures ForwardFrom(ms[k..]) <==> forall i: nat :: k <= i < |ms| ==> CallsAnswered(ms, i)
    decreases |ms| - k
  {
    if k < |ms| {
      ForwardFromSuffix(ms, k + 1);
      HeadAnsweredAt(ms, k);
      assert ms[k..][1..] == ms[k + 1..];
    }
  }

  lemma {:induction false} PairedFromSuffix(ms: seq<Message>, k: nat)
    requires 0 < k <= |ms|
    ensures PairedFrom(PendingIds(ms[k - 1]), ms[k..]) <==>
            forall i: nat :: k <= i < |ms| ==> CallsAnswered(ms, i) && ResultsCalled(ms, i)
    decreases |ms| - k
  {
    if k < |ms| {
      PairedFromSuffix(ms, k + 1);
      HeadAnsweredAt(ms, k);
      ResultsWithinAt(ms, k);
      assert ms[k..][1..] == ms[k + 1..];
      assert ms[k..][0] == ms[k];
    }
  }

  lemma ForwardIff(ms: seq<Message>)
    ensures ForwardFrom(ms) <==> ForwardPaired(ms)
  {
    ForwardFromSuffix(ms, 0);
    assert ms[0..] == ms;
  }

  lemma PairedIff(ms: seq<Message>)
    ensures PairedFrom({}, ms) <==> Paired(ms)
  {
    if ms != [] {
      PairedFromSuffix(ms, 1);
      HeadAnsweredAt(ms, 0);
      assert ms[0..] == ms;
      if PairedFrom({}, ms) {
        forall i: nat | i < |ms| ensures CallsAnswered(ms, i) && ResultsCalled(ms, i) {
        }
      }
      if Paired(ms) {
        assert CallsAnswered(ms, 0) && ResultsCalled(ms, 0);
        forall r | r in ms[0].content && ms[0].role.User? && r.kind.ToolResult? ensures false {
        }
      }
    }
  }

  lemma {:induction false} PairedIsForward(open: set<string>, ms: seq<Message>)
    requires PairedFrom(open, ms)
    ensures ForwardFrom(ms)
    decreases ms
  {
    if ms != [] {
      PairedIsForward(PendingIds(ms[0]), ms[1..]);
    }
  }

  // ---------------------------------------------------------------------
  // Flat views of a message list
  // ---------------------------------------------------------------------

  function Tagged(role: Role, blocks: seq<Block>): (r: seq<(Role, Block)>)
    ensures |r| == |blocks|
  {
    seq(|blocks|, i requires 0 <= i < |blocks| => (role, blocks[i]))
  }

  /** The (role, block) sequence of a message list, message boundaries forgotten. */
  function Flatten(ms: seq<Message>): seq<(Role, Block)> {
    if ms == [] then [] else Tagged(ms[0].role, ms[0].content) + Flatten(ms[1..])
  }

  function WordsOfBlock(b: Block): seq<Block> {
    if b.kind.ToolResult? then [] else [b]
  }

  /** The blocks of a list that are not tool results. */
  function Words(blocks: seq<Block>): seq<Block> {
    if blocks == [] then [] else WordsOfBlock(blocks[0]) + Words(blocks[1..])
  }

  function WordsOfMessage(m: Message): seq<Block> {
    if m.role.User? then Words(m.content) else []
  }

  /** Everything users said themselves: the non-result blocks of the user messages, in order. */
  function UserWords(ms: seq<Message>): seq<Block> {
    if ms == [] then [] else WordsOfMessage(ms[0]) + UserWords(ms[1..])
  }

  lemma {:induction false} WordsConcat(a: seq<Block>, b: seq<Block>)
    ensures Words(a + b) == Words(a) + Words(b)
  {
    if a == [] {
      assert a + b == b;
    } else {
      WordsConcat(a[1..], b);
      Uncons(a, b);
      Assoc(WordsOfBlock(a[0]), Words(a[1..]), Words(b));
    }
  }

  lemma {:induction false} UserWordsConcat(a: seq<Message>, b: seq<Message>)
    ensures UserWords(a + b) == UserWords(a) + UserWords(b)
  {
    if a == [] {
      assert a + b == b;
    } else {
      UserWordsConcat(a[1..], b);
      Uncons(a, b);
      Assoc(WordsOfMessage(a[0]), UserWords(a[1..]), UserWords(b));
    }
  }
}

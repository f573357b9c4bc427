/** split_telegram_message: cutting a long message at sentence ends, else at spaces, else between
    UTF-8 characters. */
module TelegramChunker {
  import opened Bytes
  import opened Seqs

  const CHUNK_LIMIT: nat := 4000

  /** One of ".?!" or a newline. */
  predicate EndsSentence(b: byte) {
    b == 0x2E || b == 0x3F || b == 0x21 || b == 0x0A
  }

  /** Space, tab or newline. */
  predicate IsSpace(b: byte) {
    b == 0x20 || b == 0x09 || b == 0x0A
  }

  /** (b & 0xC0) == 0x80 */
  predicate IsContinuation(b: byte) {
    0x80 <= b < 0xC0
  }

  lemma ContinuationMask(v: bv8)
    ensures v & 0xC0 == 0x80 <==> 0x80 <= v < 0xC0
  {
  }

  // ---------------------------------------------------------------------
  // Where a chunk ends
  // ---------------------------------------------------------------------

  /** p is the last position in (start, limit] whose byte satisfies the test. */
  ghost predicate LastBreak(m: seq<byte>, test: byte -> bool, start: nat, limit: nat, p: nat) {
    && start < p <= limit && p < |m| && test(m[p])
    && forall k :: p < k <= limit && k < |m| ==> !test(m[k])
  }

  ghost predicate HasBreak(m: seq<byte>, test: byte -> bool, start: nat, limit: nat) {
    exists p :: start < p <= limit && p < |m| && test(m[p])
  }

  /** The chunk that starts at `start` must end at `end`. */
  ghost predicate IsCut(m: seq<byte>, start: nat, end: nat) {
    var limit := start + CHUNK_LIMIT;
    if limit >= |m| then end == |m|
    else if HasBreak(m, EndsSentence, start, limit) then end > 0 && LastBreak(m, EndsSentence, start, limit, end - 1)
    else if HasBreak(m, IsSpace, start, limit) then end > 0 && LastBreak(m, IsSpace, start, limit, end - 1)
    else if forall k :: start < k <= limit ==> IsContinuation(m[k]) then end == limit
    else start < end <= limit && !IsContinuation(m[end]) && forall k :: end < k <= limit ==> IsContinuation(m[k])
  }

  /** The chunks cut m at the right places from `start` on. */
  ghost predicate CutFrom(m: seq<byte>, start: nat, chunks: seq<seq<byte>>)
    decreases chunks
  {
    if start >= |m| then chunks == []
    else && chunks != [] && start + |chunks[0]| <= |m|
         && chunks[0] == m[start..start + |chunks[0]|]
         && IsCut(m, start, start + |chunks[0]|)
         && CutFrom(m, start + |chunks[0]|, chunks[1..])
  }

  // ---------------------------------------------------------------------
  // The loop
  // ---------------------------------------------------------------------

  /** std::string::find_last_of: the last position up to `pos` whose byte satisfies the test. */
  method FindLastOf(m: seq<byte>, test: byte -> bool, pos: nat) returns (found: bool, at: nat)
    requires pos < |m|
    ensures found ==> at <= pos && test(m[at]) && forall k :: at < k <= pos ==> !test(m[k])
    ensures !found ==> forall k :: 0 <= k <= pos ==> !test(m[k])
  {
    var i := pos + 1;
    while i > 0
      invariant 0 <= i <= pos + 1
      invariant forall k :: i <= k <= pos ==> !test(m[k])
    {
      i := i - 1;
      if test(m[i]) {
        return true, i;
      }
    }
    return false, 0;
  }

  method NextCut(m: seq<byte>, start: nat) returns (end: nat)
    requires start < |m|
    ensures start < end <= |m| && IsCut(m, start, end)
  {
    var limit := start + CHUNK_LIMIT;
    end := if limit < |m| then limit else |m|;
    if end < |m| {
      var found, at := FindLastOf(m, EndsSentence, end);
      if found && at > start {
        end := at + 1;
      } else {
        assert !HasBreak(m, EndsSentence, start, limit);
        found, at := FindLastOf(m, IsSpace, end);
        if found && at > start {
          end := at + 1;
        } else {
          assert !HasBreak(m, IsSpace, start, limit);
          while end > start && IsContinuation(m[end])
            invariant start <= end <= limit
            invariant forall k :: end < k <= limit ==> IsContinuation(m[k])
          {
            end := end - 1;
          }
          if end == start {
            end := limit;
          }
        }
      }
    }
  }

  method SplitMessage(message: seq<byte>) returns (chunks: seq<seq<byte>>)
    ensures message == [] ==> chunks == [[]]
    ensures message != [] ==> CutFrom(message, 0, chunks)
  {
    if message == [] {
      return [[]];
    }
    hide IsCut;
    chunks := [];
    var start := 0;
    assert forall rest: seq<seq<byte>> :: [] + rest == rest;
    while start < |message|
      invariant start <= |message|
      invariant forall rest :: CutFrom(message, start, rest) ==> CutFrom(message, 0, chunks + rest)
      decreases |message| - start
    {
      var end := NextCut(message, start);
      var chunk := message[start..end];
      forall rest | CutFrom(message, end, rest) ensures CutFrom(message, 0, (chunks + [chunk]) + rest) {
        Cons(chunk, rest);
        assert CutFrom(message, start, [chunk] + rest);
        Assoc(chunks, [chunk], rest);
      }
      chunks := chunks + [chunk];
      start := end;
    }
    assert chunks + [] == chunks;
    assert CutFrom(message, start, []);
  }

  // ---------------------------------------------------------------------
  // Where a chunk ends, byte by byte
  // ---------------------------------------------------------------------

  /** The last of the bytes m[from..to] that is one of these stands at p. */
  predicate IsLastOf(m: seq<byte>, bytes: set<byte>, from: nat, to: nat, p: nat)
    requires to <= |m|
  {
    from <= p < to && m[p] in bytes && forall k :: p < k < to ==> m[k] !in bytes
  }

  predicate NoneOf(m: seq<byte>, bytes: set<byte>, from: nat, to: nat)
    requires to <= |m|
  {
    forall k :: from <= k < to ==> m[k] !in bytes
  }

  /** A rest of at most 4000 bytes is one chunk. A longer one is cut behind the last of its bytes 1 to
      4000 that is a full stop, question mark, exclamation mark or line break; if there is none, behind
      the last space, tab or line break among them; and if there is none of those either, before the
      last of them that does not continue a character, or after 4000 bytes if all do. */
  lemma CutIs(m: seq<byte>, start: nat, end: nat)
    requires start < |m| && IsCut(m, start, end)
    ensures var from, to, ends, spaces := start + 1, start + 4001, {0x2E, 0x3F, 0x21, 0x0A}, {0x20, 0x09, 0x0A};
            if to > |m| then end == |m|
            else if !NoneOf(m, ends, from, to) then end > 0 && IsLastOf(m, ends, from, to, end - 1)
            else if !NoneOf(m, spaces, from, to) then end > 0 && IsLastOf(m, spaces, from, to, end - 1)
            else if forall k :: from <= k < to ==> 0x80 <= m[k] <= 0xBF then end == start + 4000
            else from <= end < to && !(0x80 <= m[end] <= 0xBF) && forall k :: end < k < to ==> 0x80 <= m[k] <= 0xBF
  {
    var from, to, ends, spaces: set<byte> := start + 1, start + 4001, {0x2E, 0x3F, 0x21, 0x0A}, {0x20, 0x09, 0x0A};
    if to <= |m| {
      assert HasBreak(m, EndsSentence, start, start + CHUNK_LIMIT) <==> !NoneOf(m, ends, from, to);
      assert HasBreak(m, IsSpace, start, start + CHUNK_LIMIT) <==> !NoneOf(m, spaces, from, to);
    }
  }

  // ---------------------------------------------------------------------
  // Nothing lost, nothing too long
  // ---------------------------------------------------------------------

  function Joined(chunks: seq<seq<byte>>): seq<byte> {
    if chunks == [] then [] else chunks[0] + Joined(chunks[1..])
  }

  lemma {:induction false} ChunksRejoin(m: seq<byte>, start: nat, chunks: seq<seq<byte>>)
    requires start <= |m| && CutFrom(m, start, chunks)
    ensures Joined(chunks) == m[start..]
    decreases chunks
  {
    hide IsCut;
    if start < |m| {
      var end := start + |chunks[0]|;
      ChunksRejoin(m, end, chunks[1..]);
      assert m[start..] == m[start..end] + m[end..];
    }
  }

  /** A cut advances by 1 to 4001 bytes: the break search looks one byte past the limit. */
  lemma CutBounds(m: seq<byte>, start: nat, end: nat)
    requires start < |m| && IsCut(m, start, end)
    ensures start < end <= start + CHUNK_LIMIT + 1 && end <= |m|
  {
  }

  lemma {:induction false} ChunkLengths(m: seq<byte>, start: nat, chunks: seq<seq<byte>>)
    requires CutFrom(m, start, chunks)
    ensures forall c :: c in chunks ==> 1 <= |c| <= CHUNK_LIMIT + 1
    decreases chunks
  {
    if start < |m| {
      CutBounds(m, start, start + |chunks[0]|);
      ChunkLengths(m, start + |chunks[0]|, chunks[1..]);
    }
  }

  /** A chunk exceeds the documented limit exactly when more text follows and the byte just past
      the limit ends a sentence, or is a space with no sentence end before it. */
  lemma OverlongIff(m: seq<byte>, start: nat, end: nat)
    requires start < |m| && IsCut(m, start, end)
    ensures var limit := start + CHUNK_LIMIT;
            end - start > CHUNK_LIMIT <==>
            limit < |m| && (EndsSentence(m[limit]) ||
                            (IsSpace(m[limit]) && !HasBreak(m, EndsSentence, start, limit)))
  {
  }

  // ---------------------------------------------------------------------
  // UTF-8 (RFC 3629, sections 3 and 4)
  // ---------------------------------------------------------------------

  predicate Tail(b: byte) {
    0x80 <= b <= 0xBF
  }

  /** The length of the well-formed character at the front of s, or 0. */
  function CharLength(s: seq<byte>): (n: nat)
    ensures n <= |s| && n <= 4
    ensures n > 0 ==> !IsContinuation(s[0]) && forall k :: 0 < k < n ==> IsContinuation(s[k])
  {
    if s == [] then 0
    else if s[0] <= 0x7F then 1
    else if |s| >= 2 && 0xC2 <= s[0] <= 0xDF && Tail(s[1]) then 2
    else if |s| >= 3 && s[0] == 0xE0 && 0xA0 <= s[1] <= 0xBF && Tail(s[2]) then 3
    else if |s| >= 3 && 0xE1 <= s[0] <= 0xEC && Tail(s[1]) && Tail(s[2]) then 3
    else if |s| >= 3 && s[0] == 0xED && 0x80 <= s[1] <= 0x9F && Tail(s[2]) then 3
    else if |s| >= 3 && 0xEE <= s[0] <= 0xEF && Tail(s[1]) && Tail(s[2]) then 3
    else if |s| >= 4 && s[0] == 0xF0 && 0x90 <= s[1] <= 0xBF && Tail(s[2]) && Tail(s[3]) then 4
    else if |s| >= 4 && 0xF1 <= s[0] <= 0xF3 && Tail(s[1]) && Tail(s[2]) && Tail(s[3]) then 4
    else if |s| >= 4 && s[0] == 0xF4 && 0x80 <= s[1] <= 0x8F && Tail(s[2]) && Tail(s[3]) then 4
    else 0
  }

  predicate ValidUtf8(s: seq<byte>) {
    s == [] || (CharLength(s) > 0 && ValidUtf8(s[CharLength(s)..]))
  }

  predicate Boundary(s: seq<byte>, k: nat) {
    k <= |s| && (k < |s| ==> !IsContinuation(s[k]))
  }

  lemma CharLengthPrefix(s: seq<byte>, k: nat)
    requires CharLength(s) <= k <= |s| && CharLength(s) > 0
    ensures CharLength(s[..k]) == CharLength(s)
  {
    assert forall i :: 0 <= i < k ==> s[..k][i] == s[i];
  }

  /** Valid text splits into valid text at every byte that does not continue a character. */
  lemma {:induction false} SplitValid(s: seq<byte>, k: nat)
    requires ValidUtf8(s) && Boundary(s, k)
    ensures ValidUtf8(s[..k]) && ValidUtf8(s[k..])
    decreases s
  {
    if k > 0 {
      var n := CharLength(s);
      assert k >= n;
      SplitValid(s[n..], k - n);
      CharLengthPrefix(s, k);
      assert s[..k][n..] == s[n..][..k - n];
      assert s[n..][k - n..] == s[k..];
    } else {
      assert s[..0] == [] && s[0..] == s;
    }
  }

  /** In valid text no four bytes in a row continue a character, so the back-off always stops. */
  lemma {:induction false} FourthByteStarts(s: seq<byte>, k: nat)
    requires ValidUtf8(s) && k + 4 <= |s|
    ensures exists j :: k <= j < k + 4 && !IsContinuation(s[j])
    decreases s
  {
    var n := CharLength(s);
    if k >= n {
      FourthByteStarts(s[n..], k - n);
      var j :| k - n <= j < k - n + 4 && !IsContinuation(s[n..][j]);
      assert s[n + j] == s[n..][j];
    } else if k > 0 {
      assert n < |s| && s[n..][0] == s[n];
      assert k <= n < k + 4;
    } else {
      assert !IsContinuation(s[0]);
    }
  }

  /** Every cut of valid text falls between characters. */
  lemma CutAtBoundary(m: seq<byte>, start: nat, end: nat)
    requires start < |m| && IsCut(m, start, end) && ValidUtf8(m[start..])
    ensures Boundary(m[start..], end - start)
  {
    CutBounds(m, start, end);
    var s := m[start..];
    var limit := start + CHUNK_LIMIT;
    if limit < |m| {
      if HasBreak(m, EndsSentence, start, limit) || HasBreak(m, IsSpace, start, limit) {
        AfterAscii(s, end - 1 - start);
      } else {
        FourthByteStarts(s, 1);
        var j :| 1 <= j < 5 && !IsContinuation(s[j]);
        assert !IsContinuation(m[start + j]);
      }
    }
  }

  lemma {:induction false} AfterAscii(s: seq<byte>, p: nat)
    requires ValidUtf8(s) && p < |s| && s[p] <= 0x7F
    ensures Boundary(s, p + 1)
    decreases s
  {
    var n := CharLength(s);
    if p >= n {
      AfterAscii(s[n..], p - n);
    } else if p + 1 < |s| {
      assert p == 0 && n == 1;
      assert s[1..] != [] ==> !IsContinuation(s[1..][0]);
    }
  }

  /** No character is ever cut: the chunks of valid UTF-8 are valid UTF-8. */
  lemma {:induction false} ChunksValid(m: seq<byte>, start: nat, chunks: seq<seq<byte>>)
    requires start <= |m| && CutFrom(m, start, chunks) && ValidUtf8(m[start..])
    ensures forall c :: c in chunks ==> ValidUtf8(c)
    decreases chunks
  {
    hide IsCut, ValidUtf8;
    if start < |m| {
      var n := |chunks[0]|;
      var s := m[start..];
      CutAtBoundary(m, start, start + n);
      SplitValid(s, n);
      assert s[..n] == chunks[0] && s[n..] == m[start + n..];
      ChunksValid(m, start + n, chunks[1..]);
    }
  }

  /** What split_telegram_message promises for every non-empty message. */
  lemma SplitCorrect(m: seq<byte>, chunks: seq<seq<byte>>)
    requires m != [] && CutFrom(m, 0, chunks)
    ensures Joined(chunks) == m
    ensures forall c :: c in chunks ==> 1 <= |c| <= CHUNK_LIMIT + 1
    ensures ValidUtf8(m) ==> forall c :: c in chunks ==> ValidUtf8(c)
  {
    assert m[0..] == m;
    ChunksRejoin(m, 0, chunks);
    ChunkLengths(m, 0, chunks);
    if ValidUtf8(m) {
      ChunksValid(m, 0, chunks);
    }
  }
}

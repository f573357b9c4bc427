/** The text of overflow summaries: how a queued message absorbs the next one, and how the count
    and body printed into the header are read back by the following merge. A message may also carry
    the marker by itself; what becomes of it then is stated exactly. */
module QueueText {
  import opened Seqs

  datatype Maybe<T> = Nothing | Just(value: T)

  const MARKER: string := "[Queue summary:"
  const OPENING: string := "[Queue summary: "
  const CLOSING: string := " messages] "
  const SEPARATOR: string := " | "
  const SNIPPET: nat := 150
  const MAX_INT: int := 0x7FFF_FFFF
  const MIN_INT: int := -0x8000_0000

  // ---------------------------------------------------------------------
  // std::string and std::stoi
  // ---------------------------------------------------------------------

  predicate OccursAt(s: string, sub: string, i: nat) {
    i + |sub| <= |s| && s[i..i + |sub|] == sub
  }

  /** std::string::find from position i. */
  function FindFrom(s: string, sub: string, i: nat): (r: Maybe<nat>)
    ensures r.Just? ==> i <= r.value && OccursAt(s, sub, r.value)
    decreases |s| - i
  {
    if i + |sub| > |s| then Nothing
    else if OccursAt(s, sub, i) then Just(i)
    else FindFrom(s, sub, i + 1)
  }

  function Find(s: string, sub: string): Maybe<nat> {
    FindFrom(s, sub, 0)
  }

  /** std::string::substr(0, n). */
  function Prefix(s: string, n: nat): string {
    if |s| <= n then s else s[..n]
  }

  predicate IsDigit(c: char) {
    '0' <= c <= '9'
  }

  predicate IsSpace(c: char) {
    c == ' ' || '\t' <= c <= '\r'
  }

  function SkipSpaces(s: string): string {
    if s != "" && IsSpace(s[0]) then SkipSpaces(s[1..]) else s
  }

  function LeadingDigits(s: string): string {
    if s != "" && IsDigit(s[0]) then [s[0]] + LeadingDigits(s[1..]) else ""
  }

  function DigitsValue(s: string): int {
    if s == "" then 0 else 10 * DigitsValue(s[..|s| - 1]) + (s[|s| - 1] as int - '0' as int)
  }

  /** std::stoi; Nothing stands for either exception. */
  function Stoi(s: string): Maybe<int> {
    var t := SkipSpaces(s);
    var negative := t != "" && t[0] == '-';
    var u := if t != "" && (t[0] == '-' || t[0] == '+') then t[1..] else t;
    var digits := LeadingDigits(u);
    var v := if negative then -DigitsValue(digits) else DigitsValue(digits);
    if digits == "" || v < MIN_INT || v > MAX_INT then Nothing else Just(v)
  }

  function Digit(d: nat): char
    requires d < 10
  {
    ('0' as int + d) as char
  }

  function Decimal(n: nat): (s: string)
    ensures s != "" && forall c :: c in s ==> IsDigit(c)
  {
    if n < 10 then [Digit(n)] else Decimal(n / 10) + [Digit(n % 10)]
  }

  /** std::to_string. */
  function ToString(n: int): string {
    if n < 0 then "-" + Decimal(-n) else Decimal(n)
  }

  // ---------------------------------------------------------------------
  // Merging two queued messages
  // ---------------------------------------------------------------------

  predicate IsSummary(message: string) {
    MARKER <= message
  }

  /** The count read back from a summary header; 1 when there is none or it does not parse.
      A missing ": " makes the source's npos + 2 wrap to 1, and a start past the end of the count
      makes the length wrap so that the rest of the message is parsed. */
  function CountOf(message: string): int {
    if !IsSummary(message) then 1
    else match Find(message, " messages]")
      case Nothing => 1
      case Just(pos) =>
        var colon := Find(message, ": ");
        var start := if colon.Just? then colon.value + 2 else 1;
        var digits := if start <= pos then message[start..pos] else message[start..];
        match Stoi(digits) case Just(n) => n case Nothing => 1
  }

  function BodyOf(message: string): string {
    if !IsSummary(message) then Prefix(message, SNIPPET)
    else match Find(message, "] ")
      case Nothing => ""
      case Just(pos) => message[pos + 2..]
  }

  function Header(count: string): string {
    OPENING + count + CLOSING
  }

  function Absorb(oldest: string, second: string): string {
    Header(ToString(CountOf(oldest) + 1)) + BodyOf(oldest) + SEPARATOR + Prefix(second, SNIPPET)
  }

  // ---------------------------------------------------------------------
  // What a summary of n messages reads
  // ---------------------------------------------------------------------

  function Snippets(parts: seq<string>): string
    requires parts != []
  {
    if |parts| == 1 then Prefix(parts[0], SNIPPET)
    else Snippets(parts[..|parts| - 1]) + SEPARATOR + Prefix(parts[|parts| - 1], SNIPPET)
  }

  /** The text that stands for the raw messages `parts`: a single one reads as itself. */
  function Rendered(parts: seq<string>): string
    requires parts != []
  {
    if |parts| == 1 then parts[0] else Header(Decimal(|parts|)) + Snippets(parts)
  }

  // ---------------------------------------------------------------------
  // Printing and parsing the count
  // ---------------------------------------------------------------------

  lemma {:induction false} DecimalValue(n: nat)
    ensures DigitsValue(Decimal(n)) == n
  {
    if n >= 10 {
      DecimalValue(n / 10);
      var s := Decimal(n);
      assert s[..|s| - 1] == Decimal(n / 10);
    } else {
      assert DigitsValue([Digit(n)][..0]) == 0;
    }
  }

  lemma {:induction false} LeadingDigitsAll(s: string)
    requires forall c :: c in s ==> IsDigit(c)
    ensures LeadingDigits(s) == s
  {
    if s != "" {
      LeadingDigitsAll(s[1..]);
    }
  }

  lemma StoiDecimal(n: nat)
    requires n <= MAX_INT
    ensures Stoi(Decimal(n)) == Just(n)
  {
    var s := Decimal(n);
    assert IsDigit(s[0]);
    assert SkipSpaces(s) == s;
    LeadingDigitsAll(s);
    DecimalValue(n);
  }

  // ---------------------------------------------------------------------
  // Finding the header's landmarks
  // ---------------------------------------------------------------------

  lemma {:induction false} FindFromIs(s: string, sub: string, i: nat, k: nat)
    requires i <= k && OccursAt(s, sub, k)
    requires forall j: nat :: i <= j < k ==> !OccursAt(s, sub, j)
    ensures FindFrom(s, sub, i) == Just(k)
    decreases k - i
  {
    if i < k {
      FindFromIs(s, sub, i + 1, k);
    }
  }

  lemma HeaderChars(digits: string, body: string)
    requires forall c :: c in digits ==> IsDigit(c)
    ensures var s := Header(digits) + body;
            && |s| == 27 + |digits| + |body|
            && s[..16] == OPENING && s[16..16 + |digits|] == digits
            && s[16 + |digits|..27 + |digits|] == CLOSING && s[27 + |digits|..] == body
            && forall j :: 16 <= j < 16 + |digits| ==> IsDigit(s[j])
  {
    var s := Header(digits) + body;
    assert |OPENING| == 16 && |CLOSING| == 11;
    forall j | 16 <= j < 16 + |digits| ensures IsDigit(s[j]) {
      assert s[j] == digits[j - 16];
      assert digits[j - 16] in digits;
    }
  }

  lemma HeaderLandmarks(digits: string, body: string)
    requires forall c :: c in digits ==> IsDigit(c)
    ensures var s := Header(digits) + body;
            && IsSummary(s)
            && Find(s, ": ") == Just(14)
            && Find(s, " messages]") == Just(16 + |digits|)
            && Find(s, "] ") == Just(25 + |digits|)
  {
    var s := Header(digits) + body;
    var d := |digits|;
    HeaderChars(digits, body);
    var head, tail := s[..16], s[16 + d..27 + d];
    assert forall j :: 0 <= j < 16 ==> s[j] == OPENING[j];
    assert forall j :: 16 + d <= j < 27 + d ==> s[j] == tail[j - 16 - d];
    assert s[..15] == MARKER;
    FindColon(s);
    FindMessages(s, d);
    FindBracket(s, d);
  }

  lemma FindColon(s: string)
    requires |s| >= 16 && forall j :: 0 <= j < 16 ==> s[j] == OPENING[j]
    ensures Find(s, ": ") == Just(14)
  {
    assert s[14..16] == ": ";
    forall j: nat | j < 14 ensures !OccursAt(s, ": ", j) {
      assert s[j..j + 2][0] == OPENING[j];
      assert OPENING[j] != ':';
    }
    FindFromIs(s, ": ", 0, 14);
  }

  lemma FindMessages(s: string, d: nat)
    requires |s| >= 27 + d
    requires forall j :: 0 <= j < 16 ==> s[j] == OPENING[j]
    requires forall j :: 16 <= j < 16 + d ==> IsDigit(s[j])
    requires forall j :: 16 + d <= j < 27 + d ==> s[j] == CLOSING[j - 16 - d]
    ensures Find(s, " messages]") == Just(16 + d)
  {
    var sub := " messages]";
    assert s[16 + d..26 + d] == sub;
    forall j: nat | j < 16 + d ensures !OccursAt(s, sub, j) {
      var w := s[j..j + 10];
      assert w[0] == s[j] && w[1] == s[j + 1];
      assert sub[0] == ' ' && sub[1] == 'm';
      if j == 15 {
        assert s[16] != 'm';
      } else if j < 15 {
        assert s[j] == OPENING[j] && s[j + 1] == OPENING[j + 1];
        assert !(OPENING[j] == ' ' && OPENING[j + 1] == 'm');
      }
    }
    FindFromIs(s, sub, 0, 16 + d);
  }

  lemma FindBracket(s: string, d: nat)
    requires |s| >= 27 + d
    requires forall j :: 0 <= j < 16 ==> s[j] == OPENING[j]
    requires forall j :: 16 <= j < 16 + d ==> IsDigit(s[j])
    requires forall j :: 16 + d <= j < 27 + d ==> s[j] == CLOSING[j - 16 - d]
    ensures Find(s, "] ") == Just(25 + d)
  {
    assert s[16 + d + 9] == ']' && s[16 + d + 10] == ' ';
    assert s[25 + d..27 + d] == "] ";
    forall j: nat | j < 25 + d ensures !OccursAt(s, "] ", j) {
      assert s[j..j + 2][0] == s[j];
      if j < 16 {
        assert OPENING[j] != ']';
      } else if j >= 16 + d {
        assert CLOSING[j - 16 - d] != ']';
      }
    }
    FindFromIs(s, "] ", 0, 25 + d);
  }

  // ---------------------------------------------------------------------
  // The round trip
  // ---------------------------------------------------------------------

  /** A summary's count and body are read back exactly as they were printed. */
  lemma HeaderReadBack(n: nat, body: string)
    requires n <= MAX_INT
    ensures var s := Header(Decimal(n)) + body; IsSummary(s) && CountOf(s) == n && BodyOf(s) == body
  {
    var s := Header(Decimal(n)) + body;
    HeaderLandmarks(Decimal(n), body);
    HeaderChars(Decimal(n), body);
    StoiDecimal(n);
  }

  lemma RenderedReadBack(parts: seq<string>)
    requires parts != [] && |parts| <= MAX_INT
    requires |parts| == 1 ==> !IsSummary(parts[0])
    ensures CountOf(Rendered(parts)) == |parts| && BodyOf(Rendered(parts)) == Snippets(parts)
  {
    hide Header;
    if |parts| > 1 {
      HeaderReadBack(|parts|, Snippets(parts));
    }
  }

  /** Absorbing one more raw message renders one more part, for messages and summaries alike. */
  lemma AbsorbRendered(parts: seq<string>, next: string)
    requires parts != [] && |parts| < MAX_INT
    requires |parts| == 1 ==> !IsSummary(parts[0])
    ensures Absorb(Rendered(parts), next) == Rendered(parts + [next])
  {
    hide Header, CountOf, BodyOf, Decimal, Prefix, IsSummary;
    var n := |parts|;
    assert (parts + [next])[..n] == parts;
    RenderedReadBack(parts);
    var front := Header(Decimal(n + 1));
    Assoc(front, Snippets(parts) + SEPARATOR, Prefix(next, SNIPPET));
    Assoc(front, Snippets(parts), SEPARATOR);
  }

  /** The exception: a raw message that starts with the marker is taken for a summary, so the
      count it claims is believed. */
  lemma ForgedHeaderBelieved(n: nat, body: string, next: string)
    requires n < MAX_INT
    ensures Absorb(Header(Decimal(n)) + body, next) ==
            Header(Decimal(n + 1)) + body + SEPARATOR + Prefix(next, SNIPPET)
  {
    hide CountOf, BodyOf, IsSummary, Decimal, Prefix;
    HeaderReadBack(n, body);
    assert ToString(CountOf(Header(Decimal(n)) + body) + 1) == Decimal(n + 1);
  }

  /** Two printed counts that are followed by a space can be told apart. */
  lemma SameCount(a: string, b: string, x: string, y: string)
    requires ' ' !in a && ' ' !in b && a + (" " + x) == b + (" " + y)
    ensures a == b && x == y
  {
    IndexOfFirst(a, ' ', x);
    IndexOfFirst(b, ' ', y);
    assert a == (a + (" " + x))[..|a|] && b == (b + (" " + y))[..|b|];
  }

  lemma NumberHasNoSpace(n: int)
    ensures ' ' !in ToString(n)
  {
    hide Decimal;
    assert forall c :: c in Decimal(if n < 0 then -n else n) ==> IsDigit(c);
  }

  lemma PrintedTwo(n: int)
    requires ToString(n) == Decimal(2)
    ensures n == 2
  {
    assert Decimal(2) == "2";
    if n >= 0 {
      DecimalValue(n);
      DecimalValue(2);
    }
  }

  lemma HeaderSplit(a: string, x: string, rest: string)
    requires CLOSING == " " + rest
    ensures Header(a) + x == OPENING + (a + (" " + (rest + x)))
  {
    Assoc(OPENING + a, CLOSING, x);
    Assoc(OPENING, a, CLOSING + x);
    Assoc(" ", rest, x);
  }

  lemma SameHeader(a: string, b: string, x: string, y: string)
    requires ' ' !in a && ' ' !in b && Header(a) + x == Header(b) + y
    ensures a == b && x == y
  {
    hide Header;
    var rest := CLOSING[1..];
    assert CLOSING == " " + rest;
    HeaderSplit(a, x, rest);
    HeaderSplit(b, y, rest);
    SameRest(OPENING, a + (" " + (rest + x)), b + (" " + (rest + y)));
    SameCount(a, b, rest + x, rest + y);
    SameRest(rest, x, y);
  }

  lemma SameRest(front: string, x: string, y: string)
    requires front + x == front + y
    ensures x == y
  {
    assert x == (front + x)[|front|..];
    assert y == (front + y)[|front|..];
  }

  lemma SameFront(x: string, y: string, rest: string)
    requires x + rest == y + rest
    ensures x == y
  {
    assert |x| == |y|;
    assert x == (x + rest)[..|x|];
    assert y == (y + rest)[..|y|];
  }

  /** What a raw message must be to be absorbed as one message that reads as its own beginning. */
  predicate ReadsAsRaw(m: string) {
    !IsSummary(m) || (CountOf(m) == 1 && BodyOf(m) == Prefix(m, SNIPPET))
  }

  /** A message is merged as the raw text it is exactly when it does not start with the marker, or
      is read, by accident, as one message whose text is its own beginning. */
  lemma AbsorbedAsRawIff(m: string, next: string)
    ensures Absorb(m, next) == Rendered([m, next]) <==> ReadsAsRaw(m)
  {
    hide Header, CountOf, BodyOf, Decimal, Prefix, IsSummary, ToString;
    var count, body := CountOf(m) + 1, Prefix(m, SNIPPET);
    var end := SEPARATOR + Prefix(next, SNIPPET);
    assert [m, next][..1] == [m];
    assert Snippets([m, next]) == body + SEPARATOR + Prefix(next, SNIPPET);
    Assoc(body, SEPARATOR, Prefix(next, SNIPPET));
    assert Rendered([m, next]) == Header(Decimal(2)) + (body + end);
    assert Absorb(m, next) == Header(ToString(count)) + (BodyOf(m) + end);
    assert !IsSummary(m) ==> CountOf(m) == 1 && BodyOf(m) == body by { RawReadsAsItself(m); }
    TwoIsPrinted();
    if Absorb(m, next) == Rendered([m, next]) {
      NumberHasNoSpace(count);
      NumberHasNoSpace(2);
      SameHeader(ToString(count), Decimal(2), BodyOf(m) + end, body + end);
      PrintedTwo(count);
      SameFront(BodyOf(m), body, end);
    }
  }

  lemma TwoIsPrinted()
    ensures ToString(2) == Decimal(2)
  {
  }

  lemma RawReadsAsItself(m: string)
    ensures !IsSummary(m) ==> CountOf(m) == 1 && BodyOf(m) == Prefix(m, SNIPPET)
  {
  }

  /** So a short message is merged faithfully exactly when it does not start with the marker: a
      summary's body is shorter than the summary. */
  lemma ShortAbsorbedIff(m: string, next: string)
    requires |m| <= SNIPPET
    ensures Absorb(m, next) == Rendered([m, next]) <==> !IsSummary(m)
  {
    AbsorbedAsRawIff(m, next);
    if IsSummary(m) {
      BodyShorter(m);
    }
  }

  lemma BodyShorter(m: string)
    requires IsSummary(m)
    ensures |BodyOf(m)| < |m|
  {
  }

  /** A message with the marker and no "] " loses its whole text. */
  lemma MarkedTextLost(m: string, next: string)
    requires IsSummary(m) && forall i: nat :: !OccursAt(m, "] ", i)
    ensures Absorb(m, next) == Header(ToString(CountOf(m) + 1)) + SEPARATOR + Prefix(next, SNIPPET)
  {
    hide CountOf, ToString, Header, Prefix, OccursAt, IsSummary, FindFrom;
    assert BodyOf(m) == "";
    assert Header(ToString(CountOf(m) + 1)) + "" == Header(ToString(CountOf(m) + 1));
  }

  /** Absorbing renders one more part exactly when two or more are there already, or the only one
      reads as raw. */
  lemma AbsorbRenderedIff(parts: seq<string>, next: string)
    requires parts != [] && |parts| < MAX_INT
    ensures Absorb(Rendered(parts), next) == Rendered(parts + [next]) <==> |parts| > 1 || ReadsAsRaw(parts[0])
  {
    hide Absorb, Rendered, ReadsAsRaw;
    if |parts| > 1 {
      AbsorbRendered(parts, next);
    } else {
      AbsorbedAsRawIff(parts[0], next);
      assert parts + [next] == [parts[0], next];
      assert Rendered(parts) == parts[0] by { RenderedOne(parts); }
    }
  }

  lemma RenderedOne(parts: seq<string>)
    requires |parts| == 1
    ensures Rendered(parts) == parts[0]
  {
  }

  function Quoted(s: string): string {
    if |s| > 150 then s[..150] else s
  }

  /** Two messages that do not start with "[Queue summary:" become this text, word for word. */
  lemma FirstSummaryIs(a: string, b: string)
    requires !("[Queue summary:" <= a)
    ensures Absorb(a, b) == "[Queue summary: 2 messages] " + Quoted(a) + " | " + Quoted(b)
  {
    hide Decimal, Prefix, ToString;
    RawReadsAsItself(a);
    assert ToString(2) == "2" by { TwoDigits(); }
    assert Header("2") == "[Queue summary: 2 messages] ";
    QuoteIs(a);
    QuoteIs(b);
  }

  lemma TwoDigits()
    ensures ToString(2) == "2"
  {
    assert Decimal(2) == [Digit(2)];
  }

  lemma QuoteIs(s: string)
    ensures Prefix(s, SNIPPET) == Quoted(s)
  {
    if |s| == 150 {
      Whole(s);
    }
  }
}

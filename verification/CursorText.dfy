/** The two cursors that travel as text: the composite page cursor and the since cursor. */
module CursorText {
  import opened Text
  import opened FeedbackKeys
  import opened FeedbackPaging

  // ---- Decimal integers -----------------------------------------------------

  function DigitChar(d: nat): (c: char)
    requires d < 10
    ensures '0' <= c <= '9' && c as int - '0' as int == d
  {
    ('0' as int + d) as char
  }

  function NatText(n: nat): (s: string)
    ensures s != [] && forall c :: c in s ==> '0' <= c <= '9'
  {
    if n < 10 then [DigitChar(n)] else NatText(n / 10) + [DigitChar(n % 10)]
  }

  function IntText(n: int): (s: string)
    ensures s != [] && forall c :: c in s ==> c == '-' || '0' <= c <= '9'
  {
    if n < 0 then ['-'] + NatText(-n) else NatText(n)
  }

  function ParseNat(s: string): Option<int> {
    if s == [] || !('0' <= s[|s| - 1] <= '9') then None
    else
      var d := s[|s| - 1] as int - '0' as int;
      if |s| == 1 then Some(d)
      else
        match ParseNat(s[..|s| - 1])
        case None => None
        case Some(high) => Some(10 * high + d)
  }

  function ParseInt(s: string): Option<int> {
    if s != [] && s[0] == '-' then
      match ParseNat(s[1..])
      case None => None
      case Some(n) => Some(-n)
    else
      ParseNat(s)
  }

  lemma {:induction false} NatRoundTrip(n: nat)
    ensures ParseNat(NatText(n)) == Some(n)
  {
    if n >= 10 {
      NatRoundTrip(n / 10);
      assert NatText(n)[..|NatText(n)| - 1] == NatText(n / 10);
    }
  }

  lemma IntRoundTrip(n: int)
    ensures ParseInt(IntText(n)) == Some(n)
  {
    NatRoundTrip(if n < 0 then -n else n);
    if n < 0 {
      assert IntText(n)[1..] == NatText(-n);
    } else {
      assert NatText(n)[0] in NatText(n);
    }
  }

  // ---- Splitting ------------------------------------------------------------

  function Split(s: string, sep: char): (parts: seq<string>)
    ensures parts != []
  {
    if s == [] then [[]]
    else
      var rest := Split(s[1..], sep);
      if s[0] == sep then [[]] + rest else [[s[0]] + rest[0]] + rest[1..]
  }

  function Count(s: string, c: char): nat {
    if s == [] then 0 else (if s[0] == c then 1 else 0) + Count(s[1..], c)
  }

  lemma {:induction false} SplitLength(s: string, sep: char)
    ensures |Split(s, sep)| == 1 + Count(s, sep)
  {
    if s != [] { SplitLength(s[1..], sep); }
  }

  lemma {:induction false} CountConcat(a: string, b: string, c: char)
    ensures Count(a + b, c) == Count(a, c) + Count(b, c)
    ensures c in a ==> Count(a, c) >= 1
  {
    if a == [] {
      assert a + b == b;
    } else {
      assert (a + b)[1..] == a[1..] + b;
      CountConcat(a[1..], b, c);
    }
  }

  lemma {:induction false} SplitPlain(a: string, sep: char)
    requires sep !in a
    ensures Split(a, sep) == [a]
  {
    if a != [] {
      SplitPlain(a[1..], sep);
      assert a == [a[0]] + a[1..];
    }
  }

  lemma {:induction false} SplitFirst(a: string, rest: string, sep: char)
    requires sep !in a
    ensures Split(a + [sep] + rest, sep) == [a] + Split(rest, sep)
  {
    var s := a + [sep] + rest;
    if a == [] {
      assert s[1..] == rest;
    } else {
      assert s[1..] == a[1..] + [sep] + rest;
      SplitFirst(a[1..], rest, sep);
      assert a == [a[0]] + a[1..];
    }
  }

  lemma SplitThree(a: string, b: string, c: string, sep: char)
    requires sep !in a && sep !in b && sep !in c
    ensures Split(a + [sep] + b + [sep] + c, sep) == [a, b, c]
  {
    var rest := b + [sep] + c;
    assert a + [sep] + b + [sep] + c == a + [sep] + rest;
    SplitFirst(a, rest, sep);
    SplitFirst(b, c, sep);
    SplitPlain(c, sep);
  }

  // ---- The since cursor -----------------------------------------------------

  function PrintSince(key: SortKey): string {
    key.updatedAt + ['|'] + key.source + ['|'] + IntText(key.id)
  }

  function ParseSince(text: string): Result<SortKey> {
    var parts := Split(text, '|');
    if |parts| != 3 then ValueError("Invalid feedback cursor")
    else
      match ParseInt(parts[2])
      case None => ValueError("invalid literal for int()")
      case Some(id) => Ok(SortKey(parts[0], parts[1], id))
  }

  /** A stored since text that is missing, empty or malformed counts as no cursor. */
  function ReadSince(text: Option<string>): Option<SortKey> {
    if text.None? || text.value == "" then None
    else match ParseSince(text.value) case Ok(key) => Some(key) case ValueError(_) => None
  }

  /** A separator inside the first field makes a fourth part. */
  lemma TooManyParts(a: string, b: string, c: string, sep: char)
    requires sep in a
    ensures |Split(a + [sep] + b + [sep] + c, sep)| > 3
  {
    hide Split;
    var text, tail := a + [sep] + b + [sep] + c, b + [sep] + c;
    assert text == a + ([sep] + tail);
    CountConcat(a, [sep] + tail, sep);
    CountConcat([sep], tail, sep);
    CountConcat(b, [sep] + c, sep);
    CountConcat([sep], c, sep);
    assert tail == b + ([sep] + c);
    SplitLength(text, sep);
  }

  /** A since cursor survives printing and parsing exactly when its timestamp has no separator. */
  lemma SinceRoundTrip(key: Key)
    ensures ParseSince(PrintSince(key.Sort())) == Ok(key.Sort()) <==> '|' !in key.updatedAt
    ensures ReadSince(Some(PrintSince(key.Sort()))) == Some(key.Sort()) <==> '|' !in key.updatedAt
  {
    hide Split, ParseInt, IntText;
    var a, b, c := key.updatedAt, key.source.Name(), IntText(key.id);
    assert '|' !in b && '|' !in c;
    assert PrintSince(key.Sort()) == a + ['|'] + b + ['|'] + c;
    if '|' !in a {
      SplitThree(a, b, c, '|');
      IntRoundTrip(key.id);
    } else {
      TooManyParts(a, b, c, '|');
    }
  }

  // ---- The page cursor ------------------------------------------------------

  function PageText(page: Page): string {
    match page
    case Exhausted => "*"
    case Number(n) => IntText(n)
  }

  function ParsePage(text: string): Option<Page> {
    if text == "*" then Some(Exhausted)
    else match ParseInt(text) case None => None case Some(n) => Some(Number(n))
  }

  function PartText(source: Source, c: SourceCursor): string {
    source.Name() + ['@'] + PageText(c.page) + ['@'] + IntText(c.offset)
  }

  function PrintCursors(cs: Cursors): string {
    PartText(Issue, cs.issue) + [':'] + PartText(ReviewComment, cs.reviewComment) + [':'] + PartText(Review, cs.review)
  }

  function ParsePart(text: string): Result<(Source, SourceCursor)> {
    var chunks := Split(text, '@');
    if |chunks| != 3 then ValueError("Invalid page_cursor part")
    else
      var source := if chunks[0] == Issue.Name() then Some(Issue)
                    else if chunks[0] == ReviewComment.Name() then Some(ReviewComment)
                    else if chunks[0] == Review.Name() then Some(Review) else None;
      if source.None? then ValueError("Unknown source in page_cursor")
      else if ParsePage(chunks[1]).None? || ParseInt(chunks[2]).None? then ValueError("invalid literal for int()")
      else Ok((source.value, SourceCursor(ParsePage(chunks[1]).value, ParseInt(chunks[2]).value)))
  }

  function Put(cs: Cursors, source: Source, c: SourceCursor): Cursors {
    match source
    case Issue => cs.(issue := c)
    case ReviewComment => cs.(reviewComment := c)
    case Review => cs.(review := c)
  }

  /** Later parts override earlier ones; a source that is not named stays at the start. */
  function ParseParts(parts: seq<string>, cs: Cursors): Result<Cursors> {
    if parts == [] then Ok(cs)
    else
      match ParsePart(parts[0])
      case ValueError(m) => ValueError(m)
      case Ok(named) => ParseParts(parts[1..], Put(cs, named.0, named.1))
  }

  function ParseCursors(text: Option<string>): Result<Cursors> {
    if text.None? then Ok(INITIAL_CURSORS) else ParseParts(Split(text.value, ':'), INITIAL_CURSORS)
  }

  lemma PartRoundTrip(source: Source, c: SourceCursor)
    ensures ParsePart(PartText(source, c)) == Ok((source, c))
    ensures ':' !in PartText(source, c)
  {
    hide Split, ParseInt, IntText;
    SplitThree(source.Name(), PageText(c.page), IntText(c.offset), '@');
    IntRoundTrip(c.offset);
    NamesDistinct(source, Issue);
    NamesDistinct(source, ReviewComment);
    match c.page
    case Exhausted =>
    case Number(n) =>
      IntRoundTrip(n);
      assert IntText(n) != "*" by { assert '*' !in IntText(n); assert "*"[0] == '*'; }
  }

  /** Parsing a printed page cursor gives back all three entries, exhausted or not. */
  lemma CursorsRoundTrip(cs: Cursors)
    ensures ParseCursors(Some(PrintCursors(cs))) == Ok(cs)
  {
    var a, b, c := PartText(Issue, cs.issue), PartText(ReviewComment, cs.reviewComment), PartText(Review, cs.review);
    hide PartText, ParsePart;
    PartRoundTrip(Issue, cs.issue);
    PartRoundTrip(ReviewComment, cs.reviewComment);
    PartRoundTrip(Review, cs.review);
    SplitThree(a, b, c, ':');
    var parts := [a, b, c];
    assert parts[1..] == [b, c] && [b, c][1..] == [c] && [c][1..] == [];
    var none: seq<string> := [];
    var c1 := INITIAL_CURSORS.(issue := cs.issue);
    var c2 := c1.(reviewComment := cs.reviewComment);
    assert ParseParts(none, cs) == Ok(cs);
    assert ParseParts([c], c2) == Ok(cs);
    assert ParseParts([b, c], c1) == Ok(cs);
  }
}

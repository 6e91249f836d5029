/** Which texts are cursors, and what they say. */
module CursorMeaning {
  import opened Text
  import opened FeedbackKeys
  import opened FeedbackPaging
  import opened CursorText

  // ---- Splitting ------------------------------------------------------------

  lemma {:induction false} SplitHead(s: string, sep: char) returns (rest: string)
    ensures sep !in Split(s, sep)[0]
    ensures if |Split(s, sep)| == 1 then s == Split(s, sep)[0]
            else s == Split(s, sep)[0] + [sep] + rest && Split(s, sep)[1..] == Split(rest, sep)
  {
    rest := [];
    if s != [] {
      assert s == [s[0]] + s[1..];
      var after := Split(s[1..], sep);
      if s[0] == sep {
        rest := s[1..];
        assert Split(s, sep) == [[]] + after;
        assert Split(s, sep)[0] == [] && Split(s, sep)[1..] == after;
        assert s == [] + [sep] + rest;
      } else {
        rest := SplitHead(s[1..], sep);
        assert Split(s, sep) == [[s[0]] + after[0]] + after[1..];
        hide Split;
        SplitOneMore(s, sep, rest, after, Split(s, sep));
      }
    }
  }

  lemma SplitOneMore(s: string, sep: char, rest: string, after: seq<string>, parts: seq<string>)
    requires s != [] && s[0] != sep && after != [] && sep !in after[0]
    requires if |after| == 1 then s[1..] == after[0] else s[1..] == after[0] + [sep] + rest
    requires parts == [[s[0]] + after[0]] + after[1..]
    ensures |parts| == |after| && sep !in parts[0] && parts[1..] == after[1..]
    ensures if |parts| == 1 then s == parts[0] else s == parts[0] + [sep] + rest
  {
    assert s == [s[0]] + s[1..];
  }

  /** Three parts are what stands before, between and behind two separators. */
  lemma SplitIntoThree(s: string, sep: char, a: string, b: string, c: string)
    ensures Split(s, sep) == [a, b, c]
            <==> s == a + [sep] + b + [sep] + c && sep !in a && sep !in b && sep !in c
  {
    if s == a + [sep] + b + [sep] + c && sep !in a && sep !in b && sep !in c {
      SplitThree(a, b, c, sep);
    }
    if Split(s, sep) == [a, b, c] {
      hide Split;
      var r := SplitHead(s, sep);
      assert Split(r, sep) == [b, c];
      var t := SplitHead(r, sep);
      assert Split(t, sep) == [c];
      var u := SplitHead(t, sep);
      assert s == a + [sep] + (b + [sep] + c);
    }
  }

  // ---- Integers -------------------------------------------------------------

  predicate Digits(s: string) {
    s != [] && forall i :: 0 <= i < |s| ==> '0' <= s[i] <= '9'
  }

  lemma {:induction false} NatIff(s: string)
    ensures ParseNat(s).Some? <==> Digits(s)
  {
    if |s| > 1 {
      var last := |s| - 1;
      NatIff(s[..last]);
      assert forall i :: 0 <= i < last ==> s[..last][i] == s[i];
    }
  }

  /** A number is written in digits, after at most one minus sign. */
  lemma IntIff(s: string)
    ensures ParseInt(s).Some? <==> Digits(s) || (s != [] && s[0] == '-' && Digits(s[1..]))
  {
    NatIff(s);
    if s != [] {
      NatIff(s[1..]);
    }
  }

  // ---- Cursors --------------------------------------------------------------

  predicate SinceText(text: string, key: SortKey, number: string) {
    && text == key.updatedAt + ['|'] + key.source + ['|'] + number
    && '|' !in key.updatedAt && '|' !in key.source && '|' !in number && ParseInt(number) == Some(key.id)
  }

  /** A since cursor is a stamp, a source text and a number between separators; any other stored text is no cursor. */
  lemma SinceIff(text: string, key: SortKey)
    ensures ReadSince(Some(text)) == Some(key) <==> exists number :: SinceText(text, key, number)
    ensures ReadSince(None) == None
  {
    hide Split, ParseInt;
    var parts := Split(text, '|');
    if ReadSince(Some(text)) == Some(key) {
      assert parts == [parts[0], parts[1], parts[2]];
      SplitIntoThree(text, '|', parts[0], parts[1], parts[2]);
      assert SinceText(text, key, parts[2]);
    }
    forall number | SinceText(text, key, number) ensures ReadSince(Some(text)) == Some(key) {
      SplitIntoThree(text, '|', key.updatedAt, key.source, number);
      assert text[|key.updatedAt|] == '|';
    }
  }

  predicate PartIs(text: string, source: Source, c: SourceCursor, page: string, offset: string) {
    && text == source.Name() + ['@'] + page + ['@'] + offset && '@' !in page && '@' !in offset
    && (if page == "*" then c.page == Exhausted else c.page.Number? && ParseInt(page) == Some(c.page.n))
    && ParseInt(offset) == Some(c.offset)
  }

  /** A part names one of the three sources, a page number or the exhausted mark, and an offset. */
  lemma PartIff(text: string, source: Source, c: SourceCursor)
    ensures ParsePart(text) == Ok((source, c)) <==> exists page, offset :: PartIs(text, source, c, page, offset)
  {
    hide Split, ParseInt;
    NamesDistinct(source, Issue);
    NamesDistinct(source, ReviewComment);
    NamesDistinct(source, Review);
    var chunks := Split(text, '@');
    if ParsePart(text) == Ok((source, c)) {
      assert chunks == [chunks[0], chunks[1], chunks[2]];
      SplitIntoThree(text, '@', chunks[0], chunks[1], chunks[2]);
      assert PartIs(text, source, c, chunks[1], chunks[2]);
    }
    forall page, offset | PartIs(text, source, c, page, offset) ensures ParsePart(text) == Ok((source, c)) {
      SplitIntoThree(text, '@', source.Name(), page, offset);
    }
  }

  /** Part `i` is the last one that names this source. */
  predicate LastFor(parts: seq<string>, source: Source, i: nat) {
    && i < |parts| && ParsePart(parts[i]).Ok? && ParsePart(parts[i]).value.0 == source
    && forall j :: i < j < |parts| ==> ParsePart(parts[j]).Ok? ==> ParsePart(parts[j]).value.0 != source
  }

  predicate AllGood(parts: seq<string>) {
    forall i :: 0 <= i < |parts| ==> ParsePart(parts[i]).Ok?
  }

  lemma {:induction false} PartsGood(parts: seq<string>, cs: Cursors)
    ensures ParseParts(parts, cs).Ok? <==> AllGood(parts)
    decreases |parts|
  {
    hide ParsePart;
    if parts != [] && ParsePart(parts[0]).Ok? {
      var named := ParsePart(parts[0]).value;
      PartsGood(parts[1..], Put(cs, named.0, named.1));
      assert forall i :: 1 <= i < |parts| ==> parts[1..][i - 1] == parts[i];
    }
  }

  predicate Unnamed(parts: seq<string>, source: Source) {
    forall i :: 0 <= i < |parts| && ParsePart(parts[i]).Ok? ==> ParsePart(parts[i]).value.0 != source
  }

  lemma {:induction false} PartsUnnamed(parts: seq<string>, cs: Cursors, source: Source)
    requires ParseParts(parts, cs).Ok? && Unnamed(parts, source)
    ensures ParseParts(parts, cs).value.Get(source) == cs.Get(source)
    decreases |parts|
  {
    hide ParsePart;
    if parts != [] {
      var named := ParsePart(parts[0]).value;
      PartsUnnamed(parts[1..], Put(cs, named.0, named.1), source);
    }
  }

  lemma {:induction false} PartsLast(parts: seq<string>, cs: Cursors, source: Source, i: nat)
    requires ParseParts(parts, cs).Ok? && LastFor(parts, source, i)
    ensures ParseParts(parts, cs).value.Get(source) == ParsePart(parts[i]).value.1
    decreases |parts|
  {
    hide ParsePart;
    var named := ParsePart(parts[0]).value;
    var next := Put(cs, named.0, named.1);
    if i == 0 {
      LaterUnnamed(parts, source);
      PartsUnnamed(parts[1..], next, source);
    } else {
      LaterLast(parts, source, i);
      PartsLast(parts[1..], next, source, i - 1);
    }
  }

  lemma LaterUnnamed(parts: seq<string>, source: Source)
    requires LastFor(parts, source, 0)
    ensures Unnamed(parts[1..], source)
  {
    hide ParsePart;
  }

  lemma LaterLast(parts: seq<string>, source: Source, i: nat)
    requires i > 0 && LastFor(parts, source, i)
    ensures LastFor(parts[1..], source, i - 1)
  {
    hide ParsePart;
    var prior := i - 1;
    forall j | prior < j < |parts| - 1 && ParsePart(parts[1..][j]).Ok?
      ensures ParsePart(parts[1..][j]).value.0 != source
    {
      assert parts[1..][j] == parts[j + 1];
    }
  }

  /** A cursor text is good when all its parts are; each source stands where the last part that names it says, and at
      the start when no part does. */
  lemma CursorsMean(text: string, source: Source)
    ensures var parts := Split(text, ':');
            && (ParseCursors(Some(text)).Ok? <==> AllGood(parts))
            && (ParseCursors(Some(text)).Ok? ==>
                  var c := ParseCursors(Some(text)).value.Get(source);
                  && (forall i: nat :: LastFor(parts, source, i) ==> c == ParsePart(parts[i]).value.1)
                  && (Unnamed(parts, source) ==> c == SourceCursor(Number(1), 0)))
    ensures ParseCursors(None).Ok? && ParseCursors(None).value.Get(source) == SourceCursor(Number(1), 0)
  {
    hide ParsePart, Split, ParseParts, Unnamed;
    var parts := Split(text, ':');
    PartsGood(parts, INITIAL_CURSORS);
    if ParseParts(parts, INITIAL_CURSORS).Ok? {
      if Unnamed(parts, source) {
        PartsUnnamed(parts, INITIAL_CURSORS, source);
      }
      forall i: nat | LastFor(parts, source, i)
        ensures ParseParts(parts, INITIAL_CURSORS).value.Get(source) == ParsePart(parts[i]).value.1
      {
        PartsLast(parts, INITIAL_CURSORS, source, i);
      }
    }
  }
}

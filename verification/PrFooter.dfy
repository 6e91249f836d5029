/** The pull-request footer: metadata written as an HTML comment at the end of a body, and found there again. */
module PrFooter {
  import opened Text
  import opened Base64Url

  /** How metadata becomes bytes and back; `load` fails on anything that is not valid metadata. */
  datatype Codec<!M> = Codec(dump: M -> seq<Byte>, load: seq<Byte> -> Option<M>)

  ghost predicate Lawful<M(!new)>(codec: Codec<M>) {
    forall m :: codec.dump(m) != [] && codec.load(codec.dump(m)) == Some(m)
  }

  const OPEN := "<!-- heavy-lifting:pr-metadata:v1 "
  const CLOSE := " -->"

  function Encoded<M>(codec: Codec<M>, m: M): string {
    Strip(Encode(codec.dump(m)))
  }

  function Footer<M>(codec: Codec<M>, m: M): string {
    OPEN + Encoded(codec, m) + CLOSE
  }

  function Compose<M>(codec: Codec<M>, body: Option<string>, m: M): string {
    if body.None? || body.value == "" then Footer(codec, m) else body.value + "\n\n" + Footer(codec, m)
  }

  // ---- Finding a footer -----------------------------------------------------

  predicate StartsWith(s: string, prefix: string) {
    |prefix| <= |s| && s[..|prefix|] == prefix
  }

  function Letters(s: string): (n: nat)
    ensures n <= |s| && AllLetters(s[..n]) && (n < |s| ==> !IsLetter(s[n]))
  {
    if s == "" || !IsLetter(s[0]) then 0 else 1 + Letters(s[1..])
  }

  /** The pattern matched at the start of `s`. No letter is a space, so the run of letters is as long as it can be. */
  function MatchHere(s: string): Option<string> {
    if !StartsWith(s, OPEN) then None
    else
      var rest := s[|OPEN|..];
      var n := Letters(rest);
      if n > 0 && StartsWith(rest[n..], CLOSE) then Some(rest[..n]) else None
  }

  /** The leftmost match. */
  function Search(s: string): Option<string> {
    if MatchHere(s).Some? then MatchHere(s)
    else if s == "" then None
    else Search(s[1..])
  }

  function ReadFooter<M>(codec: Codec<M>, body: Option<string>): Option<M> {
    if body.None? || body.value == "" then None
    else
      match Search(body.value)
      case None => None
      case Some(letters) =>
        match Decode(letters + Padding(|letters|))
        case None => None
        case Some(bytes) => codec.load(bytes)
  }

  // ---- What is written is found ---------------------------------------------

  lemma Prefixed(s: string, prefix: string)
    requires StartsWith(s, prefix)
    ensures |prefix| <= |s|
  {
  }

  lemma StartsWithBefore(s: string, tail: string, prefix: string)
    requires '\n' !in prefix && (tail == "" || tail[0] == '\n')
    ensures StartsWith(s + tail, prefix) <==> StartsWith(s, prefix)
  {
    if |s| >= |prefix| {
      assert (s + tail)[..|prefix|] == s[..|prefix|];
    } else if |s + tail| >= |prefix| {
      assert (s + tail)[..|prefix|][|s|] == '\n' && prefix[|s|] in prefix;
    }
  }

  lemma {:induction false} LettersBefore(s: string, tail: string)
    requires tail == "" || tail[0] == '\n'
    ensures Letters(s + tail) == Letters(s)
  {
    if s == "" {
      assert s + tail == tail;
    } else if IsLetter(s[0]) {
      LettersBefore(s[1..], tail);
      assert (s + tail)[1..] == s[1..] + tail;
    }
  }

  /** A line break ends every match, so text after one cannot complete a match before it. */
  lemma MatchBefore(s: string, tail: string)
    requires tail == "" || tail[0] == '\n'
    ensures MatchHere(s + tail) == MatchHere(s)
  {
    StartsWithBefore(s, tail, OPEN);
    hide StartsWith;
    if StartsWith(s, OPEN) {
      assert |OPEN| <= |s| by { Prefixed(s, OPEN); }
      var rest := s[|OPEN|..];
      assert (s + tail)[|OPEN|..] == rest + tail;
      LettersBefore(rest, tail);
      var n := Letters(rest);
      assert (rest + tail)[n..] == rest[n..] + tail;
      StartsWithBefore(rest[n..], tail, CLOSE);
      assert (rest + tail)[..n] == rest[..n];
    }
  }

  lemma {:induction false} SearchBefore(s: string, tail: string)
    requires tail == "" || tail[0] == '\n'
    ensures Search(s + tail) == if Search(s).Some? then Search(s) else Search(tail)
  {
    MatchBefore(s, tail);
    if s == "" {
      assert s + tail == tail;
    } else if MatchHere(s).None? {
      assert (s + tail)[1..] == s[1..] + tail;
      SearchBefore(s[1..], tail);
    }
  }

  lemma {:induction false} LettersOf(s: string, tail: string)
    requires AllLetters(s) && tail != "" && !IsLetter(tail[0])
    ensures Letters(s + tail) == |s|
  {
    if s == "" {
      assert s + tail == tail;
    } else {
      assert (s + tail)[1..] == s[1..] + tail;
      LettersOf(s[1..], tail);
    }
  }

  lemma FooterMatches<M(!new)>(codec: Codec<M>, m: M)
    requires Lawful(codec)
    ensures MatchHere(Footer(codec, m)) == Some(Encoded(codec, m))
  {
    var text, e := Footer(codec, m), Encoded(codec, m);
    StripThenPad(codec.dump(m));
    assert text[..|OPEN|] == OPEN && text[|OPEN|..] == e + CLOSE;
    LettersOf(e, CLOSE);
    assert (e + CLOSE)[|e|..] == CLOSE && (e + CLOSE)[..|e|] == e;
  }

  lemma FooterReads<M(!new)>(codec: Codec<M>, m: M)
    requires Lawful(codec)
    ensures Search(Footer(codec, m)) == Some(Encoded(codec, m))
    ensures ReadFooter(codec, Some(Footer(codec, m))) == Some(m)
    ensures Footer(codec, m) == "<!-- heavy-lifting:pr-metadata:v1 " + Encoded(codec, m) + " -->"
  {
    FooterMatches(codec, m);
    StripThenPad(codec.dump(m));
    EncodeDecodes(codec.dump(m));
  }

  /** For every body: the composed text reads back as the metadata, unless the body already holds a footer; then that
      one is read, whatever it says. */
  lemma ComposedReads<M(!new)>(codec: Codec<M>, body: Option<string>, m: M)
    requires Lawful(codec)
    ensures ReadFooter(codec, Some(Compose(codec, body, m)))
            == if body.Some? && Search(body.value).Some? then ReadFooter(codec, body) else Some(m)
  {
    hide MatchHere, Decode;
    FooterReads(codec, m);
    if body.Some? && body.value != "" {
      var footer := Footer(codec, m);
      var tail := "\n\n" + footer;
      assert Compose(codec, body, m) == body.value + tail;
      SearchBefore(body.value, tail);
      BreaksDoNotMatch(footer);
    } else if body.Some? {
      assert Search("") == None by { NothingInNothing(); }
    }
  }

  lemma BreaksDoNotMatch(footer: string)
    ensures Search("\n\n" + footer) == Search(footer)
  {
    var text := "\n\n" + footer;
    NoOpening(text);
    NoOpening(text[1..]);
    assert text[1..][1..] == footer;
  }

  lemma NoOpening(s: string)
    requires s != "" && s[0] != OPEN[0]
    ensures !StartsWith(s, OPEN)
  {
    if |OPEN| <= |s| {
      assert s[..|OPEN|][0] == s[0];
    }
  }

  lemma NothingInNothing()
    ensures Search("") == None
  {
  }
}

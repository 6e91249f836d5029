/** The hidden block in an issue description: JSON between two HTML comments, rewritten on every claim and estimate. */
module InputBlock {
  import opened Text

  /** A JSON value; only objects are looked into. */
  datatype Value = Object(fields: Fields) | True | Scalar(text: string)

  type Fields = map<string, Value>

  datatype Json = Json(dump: Fields -> string, load: string -> Option<Value>)

  /** What JSON promises: an object's text runs from brace to brace, reads back as the same object, and no shorter part
      of it is an object. */
  ghost predicate Lawful(json: Json) {
    forall m :: var text := json.dump(m);
      && |text| >= 2 && text[0] == '{' && text[|text| - 1] == '}'
      && json.load(text) == Some(Object(m))
      && forall k :: 0 <= k < |text| ==> !IsObject(json.load(text[..k]))
  }

  predicate IsObject(v: Option<Value>) {
    v.Some? && v.value.Object?
  }

  const OPEN := "<!-- heavy-lifting:input -->"
  const CLOSE := "<!-- /heavy-lifting:input -->"

  // ---- Strings --------------------------------------------------------------

  function LStrip(s: string): string {
    if s != "" && IsSpace(s[0]) then LStrip(s[1..]) else s
  }

  function RStrip(s: string): (r: string)
    ensures |r| <= |s| && r == s[..|r|]
    ensures r != "" ==> !IsSpace(r[|r| - 1])
    ensures forall i :: |r| <= i < |s| ==> IsSpace(s[i])
  {
    if s != "" && IsSpace(s[|s| - 1]) then RStrip(s[..|s| - 1]) else s
  }

  function Strip(s: string): string {
    LStrip(RStrip(s))
  }

  predicate Occurs(s: string, part: string, i: int) {
    0 <= i <= i + |part| <= |s| && s[i..i + |part|] == part
  }

  predicate Contains(s: string, part: string) {
    exists i :: 0 <= i <= |s| && Occurs(s, part, i)
  }

  /** `s.find(part, from)`. */
  function Find(s: string, part: string, from: nat): (r: Option<nat>)
    ensures r.Some? ==> from <= r.value && Occurs(s, part, r.value)
                          && forall j :: from <= j < r.value ==> !Occurs(s, part, j)
    ensures r.None? ==> forall j :: from <= j ==> !Occurs(s, part, j)
    decreases |s| - from
  {
    if |s| < from + |part| then None
    else if Occurs(s, part, from) then Some(from)
    else if from == |s| then None
    else Find(s, part, from + 1)
  }

  // ---- The block ------------------------------------------------------------

  function Block(json: Json, m: Fields): string {
    OPEN + "\n" + json.dump(m) + "\n" + CLOSE
  }

  /** Python's truthiness of an optional string. */
  function Given(s: Option<string>): Option<string> {
    if s.Some? && s.value == "" then None else s
  }

  function Inject(json: Json, description: Option<string>, m: Fields): string {
    match Given(description)
    case None => Block(json, m)
    case Some(text) => RStrip(text) + "\n\n" + Block(json, m)
  }

  datatype Extracted = Extracted(text: string, fields: Option<Fields>)

  function Parse(json: Json, body: string): Option<Fields> {
    if body != "" && IsObject(json.load(body)) then Some(json.load(body).value.fields) else None
  }

  function Joined(before: string, after: string): string {
    Strip(before + (if before != "" && after != "" then "\n" else "") + after)
  }

  function Extract(json: Json, description: Option<string>): Extracted {
    match Given(description)
    case None => Extracted("", None)
    case Some(text) =>
      match Find(text, OPEN, 0)
      case None => Extracted(text, None)
      case Some(open) =>
        match Find(text, CLOSE, open + |OPEN|)
        case None => Extracted(text, None)
        case Some(close) => Cut(json, text, open, close)
  }

  /** The block taken out at its two markers. */
  function Cut(json: Json, text: string, open: nat, close: nat): Extracted
    requires open + |OPEN| <= close && close + |CLOSE| <= |text|
  {
    Extracted(Joined(RStrip(text[..open]), LStrip(text[close + |CLOSE|..])),
              Parse(json, Strip(text[open + |OPEN|..close])))
  }

  /** A block that was opened is closed, and no second one is opened after it. */
  predicate Tidy(description: Option<string>) {
    match Given(description)
    case None => true
    case Some(text) =>
      match Find(text, OPEN, 0)
      case None => true
      case Some(open) =>
        match Find(text, CLOSE, open + |OPEN|)
        case None => false
        case Some(close) => Find(text, OPEN, close + |CLOSE|).None?
  }

  /** What is written: the description without its trailing whitespace, an empty line, and the block on lines of its
      own; the block alone when there is no description or an empty one. */
  lemma BlockLooks(json: Json, description: Option<string>, m: Fields)
    ensures Inject(json, description, m)
            == (if description == None || description == Some("") then "" else RStrip(description.value) + "\n\n")
               + ("<!-- heavy-lifting:input -->\n" + json.dump(m) + "\n<!-- /heavy-lifting:input -->")
  {
    var block := "<!-- heavy-lifting:input -->\n" + json.dump(m) + "\n<!-- /heavy-lifting:input -->";
    assert Block(json, m) == block by {
      assert OPEN + "\n" == "<!-- heavy-lifting:input -->\n";
      assert "\n" + CLOSE == "\n<!-- /heavy-lifting:input -->";
    }
    assert "" + block == block;
  }

  // ---- String facts ---------------------------------------------------------

  lemma FindIs(s: string, part: string, from: nat, i: nat)
    requires from <= i && Occurs(s, part, i) && forall j :: from <= j < i ==> !Occurs(s, part, j)
    ensures Find(s, part, from) == Some(i)
  {
    var r := Find(s, part, from);
    assert r.None? ==> !Occurs(s, part, i);
  }

  lemma OccursPrefix(s: string, k: nat, part: string, i: int)
    requires k <= |s|
    ensures Occurs(s[..k], part, i) <==> Occurs(s, part, i) && i + |part| <= k
  {
    if 0 <= i && i + |part| <= k {
      assert s[..k][i..i + |part|] == s[i..i + |part|];
    }
  }

  lemma OccursSuffix(s: string, k: nat, part: string, i: int)
    requires k <= |s| && 0 <= i
    ensures Occurs(s[k..], part, i) <==> Occurs(s, part, k + i)
  {
    if k + i + |part| <= |s| {
      assert s[k..][i..i + |part|] == s[k + i..k + i + |part|];
    }
  }

  /** An occurrence without a line break does not run across one. */
  lemma OccursBeforeBreak(a: string, tail: string, part: string, i: int)
    requires '\n' !in part && part != "" && 0 <= i <= |a|
    requires tail == "" || tail[0] == '\n'
    ensures Occurs(a + tail, part, i) <==> Occurs(a, part, i)
  {
    var s := a + tail;
    assert s[..|a|] == a;
    OccursPrefix(s, |a|, part, i);
    if i + |part| > |a| && i + |part| <= |s| {
      assert s[i..i + |part|][|a| - i] == '\n';
      assert part[|a| - i] in part;
    }
  }

  lemma ContainsPrefix(s: string, k: nat, part: string)
    requires k <= |s| && !Contains(s, part)
    ensures !Contains(s[..k], part)
  {
    forall i ensures !Occurs(s[..k], part, i) {
      OccursPrefix(s, k, part, i);
      assert !Occurs(s, part, i);
    }
  }

  lemma ContainsSuffix(s: string, k: nat, part: string)
    requires k <= |s| && !Contains(s, part)
    ensures !Contains(s[k..], part)
  {
    forall i ensures !Occurs(s[k..], part, i) {
      if 0 <= i { OccursSuffix(s, k, part, i); }
      assert !Occurs(s, part, k + i);
    }
  }

  lemma {:induction false} LStripSuffix(s: string) returns (k: nat)
    ensures k <= |s| && LStrip(s) == s[k..]
    ensures forall i :: 0 <= i < k ==> IsSpace(s[i])
    ensures LStrip(s) != "" ==> !IsSpace(LStrip(s)[0])
  {
    if s != "" && IsSpace(s[0]) {
      var j := LStripSuffix(s[1..]);
      k := j + 1;
      forall i | 0 <= i < k ensures IsSpace(s[i]) {
        assert i > 0 ==> s[1..][i - 1] == s[i];
      }
    } else {
      k := 0;
    }
  }

  lemma StripKeepsIn(s: string, part: string)
    requires Contains(s, part) && part != "" && !IsSpace(part[0]) && !IsSpace(part[|part| - 1])
    ensures Contains(RStrip(s), part) && Contains(LStrip(s), part)
  {
    var i :| 0 <= i <= |s| && Occurs(s, part, i);
    var r := RStrip(s);
    assert s[i..i + |part|][|part| - 1] == s[i + |part| - 1] && s[i..i + |part|][0] == s[i];
    OccursPrefix(s, |r|, part, i);
    assert Occurs(r, part, i);
    var k := LStripSuffix(s);
    OccursSuffix(s, k, part, i - k);
    assert Occurs(LStrip(s), part, i - k);
  }

  lemma StripKeepsOut(s: string, part: string)
    requires !Contains(s, part)
    ensures !Contains(RStrip(s), part) && !Contains(LStrip(s), part) && !Contains(Strip(s), part)
  {
    ContainsPrefix(s, |RStrip(s)|, part);
    var i := LStripSuffix(s);
    ContainsSuffix(s, i, part);
    var k := LStripSuffix(RStrip(s));
    ContainsSuffix(RStrip(s), k, part);
  }

  lemma {:induction false} RStripTail(s: string, spaces: string)
    requires forall i :: 0 <= i < |spaces| ==> IsSpace(spaces[i])
    ensures RStrip(s + spaces) == RStrip(s)
  {
    if spaces == "" {
      assert s + spaces == s;
    } else {
      var last := |spaces| - 1;
      assert (s + spaces)[..|s + spaces| - 1] == s + spaces[..last];
      RStripTail(s, spaces[..last]);
    }
  }

  lemma RStripAgain(s: string)
    ensures RStrip(RStrip(s)) == RStrip(s)
  {
  }

  lemma LStripBreak(t: string)
    requires t == "" || !IsSpace(t[0])
    ensures LStrip("\n" + t) == t
  {
    assert ("\n" + t)[1..] == t;
    assert LStrip("\n" + t) == LStrip(t);
  }

  /** Between two line breaks, text without outer whitespace strips to itself. */
  lemma StripFramed(text: string)
    requires text != "" && !IsSpace(text[0]) && !IsSpace(text[|text| - 1])
    ensures Strip("\n" + text + "\n") == text
  {
    RStripTail("\n" + text, "\n");
    assert RStrip("\n" + text) == "\n" + text;
    LStripBreak(text);
  }

  // ---- Writing a block and reading it ---------------------------------------

  lemma Constants()
    ensures '\n' !in OPEN && '\n' !in CLOSE && |OPEN| > 0 && |CLOSE| > 0 && OPEN[0] == '<' && CLOSE[0] == '<'
    ensures !IsSpace(OPEN[|OPEN| - 1])
  {
  }

  lemma OpensAt(front: string, rest: string)
    requires !Contains(front, OPEN) && (front == "" || front[|front| - 1] == '\n')
    ensures Find(front + OPEN + rest, OPEN, 0) == Some(|front|)
  {
    Constants();
    hide OPEN, Contains;
    var s := front + OPEN + rest;
    assert s[|front|..|front| + |OPEN|] == OPEN;
    if front != "" {
      var a := front[..|front| - 1];
      ContainsPrefix(front, |a|, OPEN);
      assert s == a + ("\n" + OPEN + rest);
      forall j | 0 <= j < |front| ensures !Occurs(s, OPEN, j) {
        OccursBeforeBreak(a, "\n" + OPEN + rest, OPEN, j);
        NotContained(a, OPEN, j);
      }
    }
    FindIs(s, OPEN, 0, |front|);
  }

  lemma NotContained(s: string, part: string, i: nat)
    requires !Contains(s, part)
    ensures !Occurs(s, part, i)
  {
  }

  function Closed(head: string, text: string): string {
    head + "\n" + text + "\n" + CLOSE
  }

  lemma CloseInside(head: string, text: string, i: nat)
    requires i <= |text|
    ensures Occurs(Closed(head, text), CLOSE, |head| + 1 + i) <==> Occurs(text, CLOSE, i)
  {
    Constants();
    hide CLOSE;
    var s := Closed(head, text);
    assert s[|head| + 1..] == text + ("\n" + CLOSE);
    OccursBeforeBreak(text, "\n" + CLOSE, CLOSE, i);
    hide Occurs;
    OccursSuffix(s, |head| + 1, CLOSE, i);
  }

  lemma CloseEnds(head: string, text: string)
    ensures var s, end := Closed(head, text), |head| + 1 + |text| + 1;
            |s| == end + |CLOSE| && Occurs(s, CLOSE, end) && !Occurs(s, CLOSE, |head|) && !Occurs(s, CLOSE, end - 1)
  {
    Constants();
    hide CLOSE;
    var s, end := Closed(head, text), |head| + 1 + |text| + 1;
    assert s[end..end + |CLOSE|] == CLOSE;
    assert s[|head|] == '\n' && s[end - 1] == '\n';
    NotAtBreak(s, |head|);
    NotAtBreak(s, end - 1);
  }

  /** After the opening marker, the first closing one is the first inside the JSON, or else the one after it. */
  lemma ClosesAt(head: string, text: string)
    ensures var r := Find(Closed(head, text), CLOSE, |head|);
            && r.Some? && |head| + 1 <= r.value
            && (if Contains(text, CLOSE) then r.value < |head| + 1 + |text| else r.value == |head| + 1 + |text| + 1)
  {
    CloseEnds(head, text);
    hide CLOSE, Contains, Closed, Occurs, Find;
    var s, end := Closed(head, text), |head| + 1 + |text| + 1;
    if Contains(text, CLOSE) {
      var i := Contained(text, CLOSE);
      Constants();
      CloseInside(head, text, i);
      FoundBy(s, |head|, |head| + 1 + i);
    } else {
      forall j | |head| <= j < end ensures !Occurs(s, CLOSE, j) {
        NoCloseBefore(head, text, j);
      }
      FindIs(s, CLOSE, |head|, end);
    }
  }

  lemma NoCloseBefore(head: string, text: string, j: nat)
    requires !Contains(text, CLOSE) && |head| <= j < |head| + 1 + |text| + 1
    ensures !Occurs(Closed(head, text), CLOSE, j)
  {
    CloseEnds(head, text);
    hide CLOSE, Contains, Closed, Occurs;
    if |head| < j < |head| + 1 + |text| {
      CloseInside(head, text, j - |head| - 1);
      NotContained(text, CLOSE, j - |head| - 1);
    }
  }

  lemma FoundBy(s: string, from: nat, i: nat)
    requires from < i && Occurs(s, CLOSE, i) && !Occurs(s, CLOSE, from)
    ensures var r := Find(s, CLOSE, from); r.Some? && from < r.value <= i
  {
    hide CLOSE, Occurs;
  }

  lemma Contained(s: string, part: string) returns (i: nat)
    requires Contains(s, part)
    ensures Occurs(s, part, i) && i + |part| <= |s| && (part != "" ==> i < |s|)
  {
    i :| 0 <= i <= |s| && Occurs(s, part, i);
  }

  lemma NotAtBreak(s: string, i: nat)
    requires i < |s| && s[i] == '\n'
    ensures !Occurs(s, CLOSE, i)
  {
    Constants();
    if i + |CLOSE| <= |s| {
      assert s[i..i + |CLOSE|][0] == '\n';
    }
  }

  function Front(c: Option<string>): string {
    match Given(c) case None => "" case Some(text) => RStrip(text) + "\n\n"
  }

  function TextOf(c: Option<string>): string {
    if c.Some? then c.value else ""
  }

  predicate NoOpening(c: Option<string>) {
    !Contains(TextOf(c), OPEN)
  }

  lemma FrontIsClear(c: Option<string>)
    requires NoOpening(c)
    ensures !Contains(Front(c), OPEN) && (Front(c) == "" || Front(c)[|Front(c)| - 1] == '\n')
    ensures RStrip(Front(c)) == RStrip(TextOf(c))
  {
    Constants();
    if Given(c).Some? {
      var a := RStrip(c.value);
      StripKeepsOut(c.value, OPEN);
      forall i | 0 <= i <= |Front(c)| ensures !Occurs(Front(c), OPEN, i) {
        if i <= |a| {
          OccursBeforeBreak(a, "\n\n", OPEN, i);
          assert !Occurs(a, OPEN, i);
        }
      }
      RStripTail(a, "\n\n");
      RStripAgain(c.value);
    }
  }

  lemma InjectIs(json: Json, c: Option<string>, m: Fields)
    ensures Inject(json, c, m) == Front(c) + OPEN + ("\n" + json.dump(m) + "\n" + CLOSE)
    ensures Inject(json, c, m) == Closed(Front(c) + OPEN, json.dump(m))
    ensures Inject(json, c, m) != ""
  {
    Constants();
    hide OPEN, CLOSE;
    var text := json.dump(m);
    assert Block(json, m) == OPEN + ("\n" + text + "\n" + CLOSE);
    assert Inject(json, c, m) == Front(c) + Block(json, m);
  }

  lemma {:induction false} RStripAfter(front: string, t: string)
    requires t != "" && !IsSpace(t[0])
    ensures RStrip(front + t) == front + RStrip(t)
  {
    var last := |t| - 1;
    if IsSpace(t[last]) {
      assert (front + t)[..|front + t| - 1] == front + t[..last];
      RStripAfter(front, t[..last]);
    } else {
      assert RStrip(front + t) == front + t;
    }
  }

  lemma StripBreak(t: string)
    requires t != "" && !IsSpace(t[0])
    ensures Strip("\n" + t) == RStrip(t)
  {
    RStripAfter("\n", t);
    var r := RStrip(t);
    hide RStrip;
    assert r != "" ==> r[0] == t[0];
    LStripBreak(r);
  }

  /** What a block that was written reads back as: its fields exactly when the JSON text does not hold the closing
      marker; then the text around it is what it was, up to outer whitespace. */
  lemma WrittenReads(json: Json, c: Option<string>, m: Fields)
    requires Lawful(json) && NoOpening(c)
    ensures var r := Extract(json, Some(Inject(json, c, m)));
            && (r.fields == Some(m) <==> !Contains(json.dump(m), CLOSE))
            && (Contains(json.dump(m), CLOSE) ==> r.fields == None)
            && (!Contains(json.dump(m), CLOSE) ==> r.text == Strip(TextOf(c)) && Tidy(Some(Inject(json, c, m))))
  {
    hide *;
    if Contains(json.dump(m), CLOSE) {
      BrokenReads(json, c, m);
    } else {
      WholeReads(json, c, m);
    }
  }

  lemma BrokenReads(json: Json, c: Option<string>, m: Fields)
    requires Lawful(json) && NoOpening(c) && Contains(json.dump(m), CLOSE)
    ensures Extract(json, Some(Inject(json, c, m))).fields == None
  {
    hide *;
    var d, open := Inject(json, c, m), |Front(c)|;
    WrittenMarkers(json, c, m);
    InjectIs(json, c, m);
    var close := Find(d, CLOSE, open + |OPEN|).value;
    ExtractsAt(json, d, open, close);
    CutFields(json, d, open, close);
    BrokenBody(json, m, d, Front(c) + OPEN, close);
  }

  lemma WholeReads(json: Json, c: Option<string>, m: Fields)
    requires Lawful(json) && NoOpening(c) && !Contains(json.dump(m), CLOSE)
    ensures Extract(json, Some(Inject(json, c, m))) == Extracted(Strip(TextOf(c)), Some(m))
    ensures Tidy(Some(Inject(json, c, m)))
  {
    hide *;
    var d, open := Inject(json, c, m), |Front(c)|;
    WrittenMarkers(json, c, m);
    InjectIs(json, c, m);
    FrontIsClear(c);
    ExtractsAt(json, d, open, Find(d, CLOSE, open + |OPEN|).value);
    WholeCut(json, c, m);
  }

  /** Where the two markers of a written block are found. */
  lemma WrittenMarkers(json: Json, c: Option<string>, m: Fields)
    requires NoOpening(c)
    ensures var d, open, text := Inject(json, c, m), |Front(c)|, json.dump(m);
            && Find(d, OPEN, 0) == Some(open)
            && var r := Find(d, CLOSE, open + |OPEN|);
            && r.Some? && open + |OPEN| + 1 <= r.value && r.value + |CLOSE| <= |d| && Occurs(d, CLOSE, r.value)
            && (if Contains(text, CLOSE) then r.value < open + |OPEN| + 1 + |text|
                else r.value == open + |OPEN| + 1 + |text| + 1)
  {
    FrontIsClear(c);
    InjectIs(json, c, m);
    var d, head := Inject(json, c, m), Front(c) + OPEN;
    OpensAt(Front(c), "\n" + json.dump(m) + "\n" + CLOSE);
    ClosesAt(head, json.dump(m));
    FoundInside(d, CLOSE, |head|);
    hide OPEN, CLOSE, Contains, Front, Inject, Find, Occurs, Closed;
  }

  lemma CutFields(json: Json, d: string, open: nat, close: nat)
    requires open + |OPEN| <= close && close + |CLOSE| <= |d|
    ensures Cut(json, d, open, close).fields == Parse(json, Strip(d[open + |OPEN|..close]))
  {
    hide OPEN, CLOSE, Parse, Strip;
  }

  lemma WholeCut(json: Json, c: Option<string>, m: Fields)
    requires Lawful(json) && RStrip(Front(c)) == RStrip(TextOf(c))
    ensures var d, open, text := Inject(json, c, m), |Front(c)|, json.dump(m);
            var close := open + |OPEN| + 1 + |text| + 1;
            && close + |CLOSE| == |d|
            && Cut(json, d, open, close) == Extracted(Strip(TextOf(c)), Some(m))
            && Find(d, OPEN, close + |CLOSE|).None?
  {
    hide Contains, Occurs, Find, RStrip, LStrip, Parse, Joined, OPEN, CLOSE, Front, Inject;
    InjectIs(json, c, m);
    Sliced(Front(c), json.dump(m));
    Parsed(json, m);
    StripFramed(json.dump(m));
    WholeText(c, Front(c));
    NothingAfter(Inject(json, c, m));
    hide Closed;
  }

  lemma ExtractsAt(json: Json, d: string, open: nat, close: nat)
    requires d != "" && Find(d, OPEN, 0) == Some(open) && Find(d, CLOSE, open + |OPEN|) == Some(close)
    ensures open + |OPEN| <= close && close + |CLOSE| <= |d|
    ensures Extract(json, Some(d)) == Cut(json, d, open, close)
    ensures Tidy(Some(d)) <==> Find(d, OPEN, close + |CLOSE|).None?
  {
    FoundInside(d, CLOSE, open + |OPEN|);
    hide Find, Cut, OPEN, CLOSE, Occurs;
  }

  lemma FoundInside(s: string, part: string, from: nat)
    ensures var r := Find(s, part, from);
            r.Some? ==> from <= r.value && r.value + |part| <= |s|
  {
  }

  lemma Sliced(front: string, text: string)
    ensures var head := front + OPEN;
            var d, close := Closed(head, text), |head| + 1 + |text| + 1;
            && |d| == close + |CLOSE| && d[..|front|] == front
            && d[|head|..close] == "\n" + text + "\n" && d[close + |CLOSE|..] == ""
  {
    hide OPEN, CLOSE;
    var head := front + OPEN;
    assert Closed(head, text) == front + (OPEN + "\n" + text + "\n" + CLOSE);
  }

  lemma BrokenBody(json: Json, m: Fields, d: string, head: string, close: nat)
    requires Lawful(json) && d == Closed(head, json.dump(m))
    requires |head| + 1 <= close < |head| + 1 + |json.dump(m)| && Occurs(d, CLOSE, close)
    requires close <= |d|
    ensures Parse(json, Strip(d[|head|..close])) == None
  {
    hide Contains;
    var text := json.dump(m);
    var j := close - |head| - 1;
    Constants();
    assert text[0] == '{';
    assert d[close] == d[close..close + |CLOSE|][0];
    assert d[|head| + 1] == text[0];
    var part := text[..j];
    assert d[|head|..close] == "\n" + part;
    StripBreak(part);
    var k := |RStrip(part)|;
    assert RStrip(part) == text[..k];
  }

  lemma Parsed(json: Json, m: Fields)
    requires Lawful(json)
    ensures Parse(json, json.dump(m)) == Some(m)
    ensures var text := json.dump(m); text != "" && !IsSpace(text[0]) && !IsSpace(text[|text| - 1])
  {
    assert |json.dump(m)| >= 2;
  }

  lemma WholeText(c: Option<string>, front: string)
    requires RStrip(front) == RStrip(TextOf(c))
    ensures Joined(RStrip(front), LStrip("")) == Strip(TextOf(c))
  {
    RStripAgain(TextOf(c));
    assert RStrip(front) + "" + "" == RStrip(front);
  }

  lemma NothingAfter(d: string)
    ensures Find(d, OPEN, |d|).None?
  {
  }

  // ---- Descriptions that are safe to rewrite --------------------------------

  /** A description may be rewritten when its block, if any, is closed and alone: exactly then the text left after
      taking the block out has no opening marker that would capture the next block. */
  lemma TidyIff(json: Json, description: Option<string>)
    ensures Tidy(description) <==> !Contains(Extract(json, description).text, OPEN)
  {
    hide Contains, Occurs, Find, RStrip, LStrip, Parse, Joined;
    Constants();
    if Given(description).Some? {
      var text := description.value;
      var open := Find(text, OPEN, 0);
      if open.None? {
        NoneContained(text);
      } else if Find(text, CLOSE, open.value + |OPEN|).None? {
        ContainedAt(text, open.value);
      } else {
        var end := Find(text, CLOSE, open.value + |OPEN|).value + |CLOSE|;
        EndInRange(text, open.value + |OPEN|);
        PartsTidy(text, open.value, end);
        JoinedContains(RStrip(text[..open.value]), LStrip(text[end..]));
      }
    } else {
      NothingContains();
    }
  }

  lemma NoneContained(text: string)
    requires Find(text, OPEN, 0).None?
    ensures !Contains(text, OPEN)
  {
  }

  lemma ContainedAt(text: string, i: nat)
    requires Find(text, OPEN, 0) == Some(i)
    ensures Contains(text, OPEN)
  {
  }

  lemma NothingContains()
    ensures !Contains("", OPEN)
  {
  }

  lemma EndInRange(text: string, from: nat)
    requires Find(text, CLOSE, from).Some?
    ensures Find(text, CLOSE, from).value + |CLOSE| <= |text|
  {
  }

  lemma PartsTidy(text: string, open: nat, end: nat)
    requires Find(text, OPEN, 0) == Some(open) && open <= end <= |text|
    ensures open <= |text| && !Contains(RStrip(text[..open]), OPEN)
    ensures Contains(LStrip(text[end..]), OPEN) <==> Find(text, OPEN, end).Some?
  {
    hide OPEN, Contains;
    BeforeIsClear(text, open);
    AfterIsClear(text, end);
  }

  lemma BeforeIsClear(text: string, open: nat)
    requires Find(text, OPEN, 0) == Some(open) && open <= |text|
    ensures !Contains(RStrip(text[..open]), OPEN)
  {
    Constants();
    hide OPEN;
    forall i | 0 <= i <= open ensures !Occurs(text[..open], OPEN, i) {
      OccursPrefix(text, open, OPEN, i);
    }
    hide Occurs;
    StripKeepsOut(text[..open], OPEN);
  }

  lemma AfterIsClear(text: string, end: nat)
    requires end <= |text|
    ensures Contains(LStrip(text[end..]), OPEN) <==> Find(text, OPEN, end).Some?
  {
    Constants();
    hide OPEN, Occurs;
    var found, after := Find(text, OPEN, end), text[end..];
    if found.Some? {
      OccursSuffix(text, end, OPEN, found.value - end);
      assert Contains(after, OPEN) by { ContainsHere(after, OPEN, found.value - end); }
      StripKeepsIn(after, OPEN);
    } else {
      forall i | 0 <= i <= |after| ensures !Occurs(after, OPEN, i) {
        OccursSuffix(text, end, OPEN, i);
      }
      StripKeepsOut(after, OPEN);
    }
  }

  lemma ContainsHere(s: string, part: string, i: nat)
    requires Occurs(s, part, i)
    ensures Contains(s, part)
  {
  }

  lemma JoinedContains(before: string, after: string)
    requires !Contains(before, OPEN)
    ensures Contains(Joined(before, after), OPEN) <==> Contains(after, OPEN)
  {
    Constants();
    var sep := if before != "" && after != "" then "\n" else "";
    var s := before + sep + after;
    SeparatedContains(before, sep, after);
    if Contains(s, OPEN) {
      StripKeepsIn(s, OPEN);
      StripKeepsIn(RStrip(s), OPEN);
    } else {
      StripKeepsOut(s, OPEN);
    }
  }

  lemma SeparatedContains(before: string, sep: string, after: string)
    requires !Contains(before, OPEN) && (sep == "\n" || (sep == "" && (before == "" || after == "")))
    ensures Contains(before + sep + after, OPEN) <==> Contains(after, OPEN)
  {
    Constants();
    var s := before + sep + after;
    if sep == "" {
      assert s == if before == "" then after else before;
      NothingContains();
    } else {
      var k := |before| + 1;
      assert s[k..] == after && s == before + ("\n" + after);
      forall i | 0 <= i <= |s| ensures Occurs(s, OPEN, i) <==> k <= i && Occurs(after, OPEN, i - k) {
        if i < k {
          OccursBeforeBreak(before, "\n" + after, OPEN, i);
          assert !Occurs(before, OPEN, i);
        } else {
          OccursSuffix(s, k, OPEN, i - k);
        }
      }
      if Contains(after, OPEN) {
        var i :| 0 <= i <= |after| && Occurs(after, OPEN, i);
        assert Occurs(s, OPEN, i + k);
      }
    }
  }

  // ---- Any description at all -----------------------------------------------

  /** No object's text holds the opening marker followed by a line break: outside strings it would not be JSON, and
      inside them line breaks are escaped. */
  ghost predicate NoBareMarker(json: Json) {
    forall text :: IsObject(json.load(text)) ==> !Contains(text, OPEN + "\n")
  }

  /** Whether the first block of a text is closed. */
  predicate FirstIsClosed(text: string) {
    var open := Find(text, OPEN, 0);
    open.Some? && Find(text, CLOSE, open.value + |OPEN|).Some?
  }

  /** Writing after text that holds an opening marker of its own changes neither where that marker is found nor, if it
      is closed in the text, where its closing marker is. */
  lemma OwnMarkers(json: Json, text: string, m: Fields)
    requires Contains(text, OPEN)
    ensures var d, open := Inject(json, Some(text), m), Find(text, OPEN, 0);
            && open.Some? && Find(d, OPEN, 0) == open
            && d == RStrip(text) + "\n\n" + Block(json, m)
            && open.value + |OPEN| <= |RStrip(text)|
            && var close := Find(text, CLOSE, open.value + |OPEN|);
            close.Some? ==> Find(d, CLOSE, open.value + |OPEN|) == close && close.value + |CLOSE| <= |RStrip(text)|
  {
    Markers();
    hide OPEN, CLOSE, Contains, Inject, RStrip, Find, Occurs;
    ContainedSomewhere(text);
    var open, tail := Find(text, OPEN, 0), "\n\n" + Block(json, m);
    InjectAfter(json, text, m);
    hide Block;
    assert RStrip(text) + "\n\n" + Block(json, m) == RStrip(text) + tail;
    FoundInRest(text, OPEN, 0, tail);
    if Find(text, CLOSE, open.value + |OPEN|).Some? {
      FoundInRest(text, CLOSE, open.value + |OPEN|, tail);
    }
  }

  lemma Markers()
    ensures '\n' !in OPEN && '\n' !in CLOSE && OPEN != "" && |CLOSE| == |OPEN| + 1
    ensures !IsSpace(OPEN[|OPEN| - 1]) && !IsSpace(CLOSE[|CLOSE| - 1])
  {
  }

  lemma InjectAfter(json: Json, text: string, m: Fields)
    requires text != ""
    ensures Inject(json, Some(text), m) == RStrip(text) + "\n\n" + Block(json, m)
  {
    hide Block, RStrip;
  }

  lemma ContainedSomewhere(text: string)
    requires Contains(text, OPEN)
    ensures Find(text, OPEN, 0).Some? && text != ""
  {
    Constants();
    var i := Contained(text, OPEN);
    hide OPEN;
  }

  /** What is found in a text is found in the same place after trailing whitespace was cut off and more was written. */
  lemma FoundInRest(text: string, part: string, from: nat, tail: string)
    requires '\n' !in part && part != "" && !IsSpace(part[|part| - 1]) && tail != "" && tail[0] == '\n'
    requires Find(text, part, from).Some?
    ensures Find(RStrip(text) + tail, part, from) == Find(text, part, from)
    ensures Find(text, part, from).value + |part| <= |RStrip(text)|
  {
    var r, i := RStrip(text), Find(text, part, from).value;
    assert text[i..i + |part|][|part| - 1] == text[i + |part| - 1];
    forall j | from <= j <= i ensures Occurs(r + tail, part, j) <==> Occurs(text, part, j) {
      OccursPrefix(text, |r|, part, j);
      OccursBeforeBreak(r, tail, part, j);
      if Occurs(text, part, j) {
        assert text[j..j + |part|][|part| - 1] == text[j + |part| - 1];
      }
    }
    hide Occurs, RStrip;
    FindIs(r + tail, part, from, i);
  }

  /** A closed block in the text before it is the one that is read, whatever was written. */
  lemma LeftoverReads(json: Json, text: string, m: Fields)
    requires Contains(text, OPEN) && FirstIsClosed(text)
    ensures Extract(json, Some(Inject(json, Some(text), m))).fields == Extract(json, Some(text)).fields
  {
    hide Contains, Find, Inject, Block, OPEN, CLOSE, Parse, Strip, RStrip, Joined, LStrip, Occurs;
    OwnMarkers(json, text, m);
    ContainedSomewhere(text);
    var d := Inject(json, Some(text), m);
    var open := Find(text, OPEN, 0).value;
    var from := open + |OPEN|;
    var close := Find(text, CLOSE, from).value;
    FoundInside(text, CLOSE, from);
    FoundInside(d, CLOSE, from);
    assert d != "" by { assert |d| > 0; }
    ExtractsAt(json, text, open, close);
    ExtractsAt(json, d, open, close);
    CutFields(json, text, open, close);
    CutFields(json, d, open, close);
    assert d[from..close] == RStrip(text)[from..close] == text[from..close];
  }

  /** An opening marker that the text leaves open swallows the marker of the block written after it. */
  lemma StrayReadsNothing(json: Json, text: string, m: Fields)
    requires Lawful(json) && NoBareMarker(json) && Contains(text, OPEN) && !FirstIsClosed(text)
    ensures Extract(json, Some(Inject(json, Some(text), m))).fields == None
  {
    hide Contains, Find, Inject, Parse, Strip, Joined, LStrip, Occurs, FirstIsClosed;
    OwnMarkers(json, text, m);
    var d, open := Inject(json, Some(text), m), Find(text, OPEN, 0).value;
    var from, r := open + |OPEN|, RStrip(text);
    var close := StrayCloses(json, text, m);
    hide OPEN, CLOSE, RStrip, Block;
    ExtractsAt(json, d, open, close);
    CutFields(json, d, open, close);
    SwallowedMarker(json, d[from..close], m);
  }

  /** Such a text's marker is closed inside the block that was written, behind that block's own opening marker. */
  lemma StrayCloses(json: Json, text: string, m: Fields) returns (close: nat)
    requires Lawful(json) && Contains(text, OPEN) && !FirstIsClosed(text)
    ensures var d, open := Inject(json, Some(text), m), Find(text, OPEN, 0);
            && d != "" && open.Some? && Find(d, CLOSE, open.value + |OPEN|) == Some(close)
            && open.value + |OPEN| <= close <= |d|
            && Contains(d[open.value + |OPEN|..close], OPEN + "\n{")
  {
    Markers();
    OwnMarkers(json, text, m);
    var d, open := Inject(json, Some(text), m), Find(text, OPEN, 0).value;
    var from, front := open + |OPEN|, RStrip(text) + "\n\n";
    var head, body := front + OPEN, json.dump(m);
    assert |body| >= 2 && body[0] == '{';
    BlockIsClosed(json, front, m);
    assert d == Closed(head, body);
    ClosesAt(head, body);
    hide *;
    forall j | from <= j <= |head| + 1 ensures !Occurs(d, CLOSE, j) {
      NotBeforeBody(text, body, j, from);
    }
    close := Find(d, CLOSE, |head|).value;
    FoundInside(d, CLOSE, |head|);
    FindFrom(d, from, |head|, close);
    MarkerInside(d, front, body, from, close);
  }

  lemma BlockIsClosed(json: Json, front: string, m: Fields)
    ensures front + Block(json, m) == Closed(front + OPEN, json.dump(m))
  {
    hide OPEN, CLOSE;
    assert front + Block(json, m) == front + OPEN + "\n" + json.dump(m) + "\n" + CLOSE;
  }

  lemma FindFrom(s: string, from: nat, later: nat, close: nat)
    requires from <= later && Find(s, CLOSE, later) == Some(close) && later + 1 <= close
    requires forall j :: from <= j <= later + 1 ==> !Occurs(s, CLOSE, j)
    ensures close > later + 1 && Find(s, CLOSE, from) == Some(close)
  {
    hide CLOSE, Occurs;
    FindIs(s, CLOSE, from, close);
  }

  lemma MarkerInside(d: string, front: string, body: string, from: nat, close: nat)
    requires d == Closed(front + OPEN, body) && body != "" && body[0] == '{'
    requires from <= |front| && |front| + |OPEN| + 1 < close <= |d|
    ensures Contains(d[from..close], OPEN + "\n{")
  {
    hide OPEN, CLOSE;
    var part, i := OPEN + "\n{", |front| - from;
    var s := d[from..close];
    assert d[|front|..|front| + |OPEN| + 2] == part;
    assert s[i..i + |part|] == part;
    assert Occurs(s, part, i);
  }

  /** No closing marker lies between the stray marker and the JSON text. */
  lemma NotBeforeBody(text: string, body: string, j: nat, from: nat)
    requires Find(text, OPEN, 0).Some? && from == Find(text, OPEN, 0).value + |OPEN| && !FirstIsClosed(text)
    requires body != "" && body[0] == '{'
    requires from <= j <= |RStrip(text) + "\n\n" + OPEN| + 1
    ensures !Occurs(Closed(RStrip(text) + "\n\n" + OPEN, body), CLOSE, j)
  {
    Markers();
    Constants();
    hide OPEN, CLOSE, RStrip, FirstIsClosed, Find;
    var head := RStrip(text) + "\n\n" + OPEN;
    UnclosedAfter(text, j);
    if j > |head| {
      hide Occurs;
      StartsOtherwise(Closed(head, body), j) by { assert Closed(head, body)[j] == '{'; }
    } else {
      hide Closed, Occurs;
      OccursInHead(head, body, j);
      OccursInText(text, j);
    }
  }

  lemma UnclosedAfter(text: string, j: nat)
    requires Find(text, OPEN, 0).Some? && !FirstIsClosed(text) && Find(text, OPEN, 0).value + |OPEN| <= j
    ensures !Occurs(text, CLOSE, j)
  {
    hide OPEN, CLOSE, Occurs;
  }

  lemma StartsOtherwise(s: string, j: nat)
    requires j < |s| && s[j] != CLOSE[0]
    ensures !Occurs(s, CLOSE, j)
  {
    Constants();
    hide CLOSE;
    if j + |CLOSE| <= |s| {
      assert s[j..j + |CLOSE|][0] == s[j];
    }
  }

  lemma OccursInHead(head: string, body: string, j: nat)
    requires j <= |head|
    ensures Occurs(Closed(head, body), CLOSE, j) <==> Occurs(head, CLOSE, j)
  {
    Markers();
    hide CLOSE, Occurs;
    var tail := "\n" + body + "\n" + CLOSE;
    assert Closed(head, body) == head + tail;
    OccursBeforeBreak(head, tail, CLOSE, j);
  }

  lemma OccursInText(text: string, j: nat)
    requires !Occurs(text, CLOSE, j)
    ensures !Occurs(RStrip(text) + "\n\n" + OPEN, CLOSE, j)
  {
    Markers();
    var r, rest := RStrip(text), "\n\n" + OPEN;
    hide OPEN, CLOSE, RStrip;
    assert r + "\n\n" + OPEN == r + rest;
    if j <= |r| {
      OccursBeforeBreak(r, rest, CLOSE, j);
      OccursPrefix(text, |r|, CLOSE, j);
    } else if j == |r| + 1 {
      NotAtBreak(r + rest, j);
    } else {
      assert j + |CLOSE| > |r + rest|;
    }
  }

  lemma SwallowedMarker(json: Json, body: string, m: Fields)
    requires NoBareMarker(json) && Contains(body, OPEN + "\n{")
    ensures Parse(json, Strip(body)) == None
  {
    Constants();
    hide OPEN;
    var part := OPEN + "\n{";
    assert part[0] == OPEN[0] && part[|part| - 1] == '{';
    StripKeepsIn(body, part);
    StripKeepsIn(RStrip(body), part);
    var text := Strip(body);
    var i := Contained(text, part);
    assert text[i..i + |OPEN| + 1] == part[..|OPEN| + 1] == OPEN + "\n" by {
      assert text[i..i + |part|][..|OPEN| + 1] == text[i..i + |OPEN| + 1];
    }
    assert Occurs(text, OPEN + "\n", i);
    assert Contains(text, OPEN + "\n");
  }

  /** For any text before the block: what the written block reads back as. */
  lemma WrittenAnywhere(json: Json, text: string, m: Fields)
    requires Lawful(json) && NoBareMarker(json)
    ensures Extract(json, Some(Inject(json, Some(text), m))).fields
            == if !Contains(text, OPEN) then (if Contains(json.dump(m), CLOSE) then None else Some(m))
               else if FirstIsClosed(text) then Extract(json, Some(text)).fields
               else None
  {
    hide *;
    if !Contains(text, OPEN) {
      assert NoOpening(Some(text)) by { NoOpeningIn(text); }
      WrittenReads(json, Some(text), m);
    } else if FirstIsClosed(text) {
      LeftoverReads(json, text, m);
    } else {
      StrayReadsNothing(json, text, m);
    }
  }

  lemma NoOpeningIn(text: string)
    requires !Contains(text, OPEN)
    ensures NoOpening(Some(text))
  {
  }

  // ---- Claims and estimates -------------------------------------------------

  datatype Op = Claim | Estimate(value: Value)

  function Updated(m: Fields, op: Op): Fields {
    match op
    case Claim =>
      var selection := if "selection" in m && m["selection"].Object? then m["selection"].fields else map[];
      m["selection" := Object(selection["taken_in_work" := True])]
    case Estimate(value) => m["estimate" := value]
  }

  function FieldsOf(r: Extracted): Fields {
    if r.fields.Some? then r.fields.value else map[]
  }

  function Rewritten(json: Json, description: Option<string>, op: Op): string {
    var r := Extract(json, description);
    Inject(json, Some(r.text), Updated(FieldsOf(r), op))
  }

  /** The issue as the tracker stores it; every operation reads, changes and writes back its description. */
  class Issue {
    var description: Option<string>

    constructor (description: Option<string>)
      ensures this.description == description
    {
      this.description := description;
    }

    method ClaimTaskSelection(json: Json)
      modifies this
      ensures description == Some(Rewritten(json, old(description), Claim))
    {
      var read := Extract(json, description);
      var next := FieldsOf(read);
      var selection: Fields := map[];
      if "selection" in next && next["selection"].Object? {
        selection := next["selection"].fields;
      }
      selection := selection["taken_in_work" := True];
      next := next["selection" := Object(selection)];
      description := Some(Inject(json, Some(read.text), next));
    }

    method UpdateTaskEstimate(json: Json, estimate: Value)
      modifies this
      ensures description == Some(Rewritten(json, old(description), Estimate(estimate)))
    {
      var read := Extract(json, description);
      var next := FieldsOf(read);
      next := next["estimate" := estimate];
      description := Some(Inject(json, Some(read.text), next));
    }
  }

  function After(json: Json, description: Option<string>, ops: seq<Op>): Option<string> {
    if ops == [] then description
    else Some(Rewritten(json, After(json, description, ops[..|ops| - 1]), ops[|ops| - 1]))
  }

  function Fold(m: Fields, ops: seq<Op>): Fields {
    if ops == [] then m else Updated(Fold(m, ops[..|ops| - 1]), ops[|ops| - 1])
  }

  /** No state along the way has the closing marker in its JSON text. */
  predicate Printable(json: Json, m: Fields, ops: seq<Op>) {
    forall k :: 1 <= k <= |ops| ==> !Contains(json.dump(Fold(m, ops[..k])), CLOSE)
  }

  /** One claim or estimate on any description: its fields are read back if and only if the description is tidy and the
      JSON text is free of the closing marker, or a closed block left over in the text happens to hold them already. */
  lemma RewrittenReads(json: Json, description: Option<string>, op: Op)
    requires Lawful(json) && NoBareMarker(json)
    ensures var before := Extract(json, description);
            var m := Updated(FieldsOf(before), op);
            Extract(json, Some(Rewritten(json, description, op))).fields == Some(m)
            <==> (Tidy(description) && !Contains(json.dump(m), CLOSE))
                 || (!Tidy(description) && FirstIsClosed(before.text)
                     && Extract(json, Some(before.text)).fields == Some(m))
  {
    hide Tidy, Extract, Updated, Inject, Contains, FirstIsClosed;
    TidyIff(json, description);
    var before := Extract(json, description);
    WrittenAnywhere(json, before.text, Updated(FieldsOf(before), op));
  }

  lemma StripTwice(s: string)
    ensures Strip(Strip(s)) == Strip(s)
  {
    var r := RStrip(s);
    var k := LStripSuffix(r);
    var t := LStrip(r);
    assert RStrip(t) == t by { assert t != "" ==> t[|t| - 1] == r[|r| - 1]; }
    var j := LStripSuffix(t);
  }

  /** Over any sequence of claims and estimates, a tidy description keeps its text up to outer whitespace and a single
      closed block, whose fields are those the operations lead to. */
  lemma {:induction false} BlockSurvives(json: Json, description: Option<string>, ops: seq<Op>)
    requires Lawful(json) && Tidy(description)
    requires Printable(json, FieldsOf(Extract(json, description)), ops)
    ensures Tidy(After(json, description, ops))
    ensures ops != [] ==>
              var start := Extract(json, description);
              Extract(json, After(json, description, ops))
              == Extracted(Strip(start.text), Some(Fold(FieldsOf(start), ops)))
  {
    hide Tidy, Extract, Updated, Inject, Strip, Contains;
    if ops != [] {
      var last := |ops| - 1;
      var start := Extract(json, description);
      var m := FieldsOf(start);
      PrintableBefore(json, m, ops);
      BlockSurvives(json, description, ops[..last]);
      var before := After(json, description, ops[..last]);
      var r := Extract(json, before);
      TidyIff(json, before);
      assert FieldsOf(r) == Fold(m, ops[..last]);
      WrittenReads(json, Some(r.text), Updated(FieldsOf(r), ops[last]));
      StripTwice(start.text);
    }
  }

  lemma PrintableBefore(json: Json, m: Fields, ops: seq<Op>)
    requires Printable(json, m, ops) && ops != []
    ensures Printable(json, m, ops[..|ops| - 1]) && !Contains(json.dump(Fold(m, ops)), CLOSE)
  {
    hide Contains;
    var last := |ops| - 1;
    assert ops[..|ops|] == ops;
    forall k | 1 <= k <= last ensures !Contains(json.dump(Fold(m, ops[..last][..k])), CLOSE) {
      assert ops[..last][..k] == ops[..k];
    }
  }

  function Lookup(m: Fields, key: string): Option<Value> {
    if key in m then Some(m[key]) else None
  }

  function LastEstimate(ops: seq<Op>): Option<Value> {
    if ops == [] then None
    else if ops[|ops| - 1].Estimate? then Some(ops[|ops| - 1].value)
    else LastEstimate(ops[..|ops| - 1])
  }

  function Selection(m: Fields): Fields {
    if "selection" in m && m["selection"].Object? then m["selection"].fields else map[]
  }

  /** What the operations lead to: claimed once claimed, the last estimate, and everything else as it was. */
  lemma {:induction false} FoldMeans(m: Fields, ops: seq<Op>, key: string)
    ensures var f := Fold(m, ops);
            && Lookup(Selection(f), "taken_in_work")
               == (if Claim in ops then Some(True) else Lookup(Selection(m), "taken_in_work"))
            && Lookup(f, "estimate") == (if LastEstimate(ops).Some? then LastEstimate(ops) else Lookup(m, "estimate"))
            && (key != "selection" && key != "estimate" ==> Lookup(f, key) == Lookup(m, key))
            && (key != "taken_in_work" ==> Lookup(Selection(f), key) == Lookup(Selection(m), key))
  {
    if ops != [] {
      var last := |ops| - 1;
      FoldMeans(m, ops[..last], key);
      assert ops == ops[..last] + [ops[last]];
      UpdateMeans(Fold(m, ops[..last]), ops[last], key);
      hide Updated, Selection, Lookup;
    }
  }

  lemma UpdateMeans(m: Fields, op: Op, key: string)
    ensures var f := Updated(m, op);
            && (op.Claim? ==> Lookup(Selection(f), "taken_in_work") == Some(True))
            && (op.Estimate? ==> Selection(f) == Selection(m))
            && Lookup(f, "estimate") == (if op.Estimate? then Some(op.value) else Lookup(m, "estimate"))
            && (key != "selection" && key != "estimate" ==> Lookup(f, key) == Lookup(m, key))
            && (key != "taken_in_work" ==> Lookup(Selection(f), key) == Lookup(Selection(m), key))
  {
    assert "selection" != "estimate" by { assert |"selection"| == 9; }
  }
}

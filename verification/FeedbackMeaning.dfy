/** What the keys and their order mean for the comments themselves: fields, stamps, and which come first. */
module FeedbackMeaning {
  import opened Text
  import opened FeedbackKeys
  import opened FeedbackPaging
  import opened FeedbackRuns
  import opened FeedbackItems
  import opened PrFeedbackTheorems

  // ---- Text order -----------------------------------------------------------

  /** At the first place where they differ, `a` has the smaller character or has already ended. */
  predicate DiffersAt(a: string, b: string, i: nat) {
    i <= |a| && i < |b| && a[..i] == b[..i] && (i < |a| ==> a[i] < b[i])
  }

  predicate Precedes(a: string, b: string) {
    exists i :: 0 <= i <= |a| && DiffersAt(a, b, i)
  }

  lemma {:induction false} PrecedesIff(a: string, b: string)
    ensures StrLess(a, b) <==> Precedes(a, b)
  {
    if b == [] {
    } else if a == [] {
      assert DiffersAt(a, b, 0);
    } else if a[0] != b[0] {
      assert a[0] < b[0] ==> DiffersAt(a, b, 0);
      forall i | 0 < i <= |a| ensures !DiffersAt(a, b, i) {
        if i < |b| {
          assert a[..i][0] == a[0] && b[..i][0] == b[0];
        }
      }
    } else {
      PrecedesIff(a[1..], b[1..]);
      if i :| 0 <= i <= |a[1..]| && DiffersAt(a[1..], b[1..], i) {
        assert a[..i + 1] == [a[0]] + a[1..][..i] && b[..i + 1] == [b[0]] + b[1..][..i];
        assert DiffersAt(a, b, i + 1);
      }
      if i :| 0 <= i <= |a| && DiffersAt(a, b, i) {
        assert i > 0;
        assert a[1..][..i - 1] == a[..i][1..] && b[1..][..i - 1] == b[..i][1..];
        assert DiffersAt(a[1..], b[1..], i - 1);
      }
    }
  }

  /** Earlier stamps come first, then the source names in text order, then the smaller numbers. */
  lemma ComesFirst(a: SortKey, b: SortKey)
    ensures TupleLess(a, b)
            <==> Precedes(a.updatedAt, b.updatedAt)
                 || (a.updatedAt == b.updatedAt
                     && (Precedes(a.source, b.source) || (a.source == b.source && a.id < b.id)))
  {
    hide Precedes;
    PrecedesIff(a.updatedAt, b.updatedAt);
    PrecedesIff(a.source, b.source);
  }

  /** Issue comments before reviews, reviews before review comments. */
  lemma SourcesInOrder()
    ensures Precedes(Issue.Name(), Review.Name()) && Precedes(Review.Name(), ReviewComment.Name())
  {
    var review, comment := Review.Name(), ReviewComment.Name();
    assert DiffersAt(Issue.Name(), review, 0);
    assert comment[..6] == review && DiffersAt(review, comment, 6);
  }

  /** Text order is strict, so at most one of two stamps precedes the other. */
  lemma PrecedesStrict(a: string, b: string)
    ensures Precedes(a, b) || a == b || Precedes(b, a)
    ensures !(Precedes(a, b) && Precedes(b, a)) && !(Precedes(a, b) && a == b)
  {
    hide Precedes;
    PrecedesIff(a, b);
    PrecedesIff(b, a);
    StrTrichotomy(a, b);
  }

  // ---- What a call hands out ------------------------------------------------

  /** Which listed comments a poll with a since key is about: all with a later stamp and none with an earlier one; on
      the same stamp the source name decides, and then the number. */
  lemma LaterIsEligible(server: Server, since: SortKey, x: Item)
    requires Listed(server, x)
    ensures Precedes(since.updatedAt, x.key.updatedAt) ==> Eligible(ReadViews(server, Some(since)), x)
    ensures Precedes(x.key.updatedAt, since.updatedAt) ==> !Eligible(ReadViews(server, Some(since)), x)
    ensures x.key.updatedAt == since.updatedAt && x.key.source.Name() == since.source ==>
              (Eligible(ReadViews(server, Some(since)), x) <==> since.id < x.key.id)
    ensures x.key.updatedAt == since.updatedAt && x.key.source.Name() != since.source ==>
              (Eligible(ReadViews(server, Some(since)), x) <==> Precedes(since.source, x.key.source.Name()))
  {
    hide Precedes, TupleLess, Listed, Eligible, ReadViews;
    EligibleIff(server, Some(since), x);
    ComesFirst(since, x.key.Sort());
    PrecedesStrict(since.updatedAt, x.key.updatedAt);
    PrecedesStrict(since.source, x.key.source.Name());
  }

  /** Along a page stamps never fall, and on one stamp source names never fall, and in one source numbers never fall. */
  lemma PagesRise(views: Views, cs: Cursors, limit: nat, i: nat, j: nat)
    requires ValidCursors(cs) && i < j < |ReadPage(views, cs, limit).items|
    ensures var a, b := ReadPage(views, cs, limit).items[i].key, ReadPage(views, cs, limit).items[j].key;
            && !Precedes(b.updatedAt, a.updatedAt)
            && (a.updatedAt == b.updatedAt ==> !Precedes(b.source.Name(), a.source.Name()))
            && (a.updatedAt == b.updatedAt && a.source == b.source ==> a.id <= b.id)
  {
    hide Precedes, TupleLess, ReadPage, Merged;
    PageItems(views, cs, limit);
    MergedSorted(views, cs, PerPage(limit));
    var items := ReadPage(views, cs, limit).items;
    assert !KeyLess(items[j].key, items[i].key);
    ComesFirst(items[j].key.Sort(), items[i].key.Sort());
  }

  /** A page is the start of what was loaded: whatever was left out for lack of room comes after all
      that was returned. */
  lemma LeftOutIsLater(views: Views, cs: Cursors, limit: nat, x: Item, y: Item)
    requires ValidCursors(cs) && x in ReadPage(views, cs, limit).items
    requires y in Merged(views, cs, PerPage(limit)) && y !in ReadPage(views, cs, limit).items
    ensures !Precedes(y.key.updatedAt, x.key.updatedAt)
  {
    hide Precedes, TupleLess, ReadPage, Merged;
    PageItems(views, cs, limit);
    MergedSorted(views, cs, PerPage(limit));
    if KeyLess(y.key, x.key) {
      TakeIsDownClosed(Merged(views, cs, PerPage(limit)), limit, x, y);
    }
    ComesFirst(y.key.Sort(), x.key.Sort());
  }

  // ---- Fields ---------------------------------------------------------------

  predicate Blank(s: string) {
    forall i :: 0 <= i < |s| ==> IsSpace(s[i])
  }

  /** An issue or review comment is readable when it has a number, a stamp and a body; the stamp is that of its last
      update, and that of its creation only when there is none. */
  lemma CommentFields(source: Source, raw: Raw)
    requires !source.Review?
    ensures raw.id.None? || raw.body.None? ==> BuildItem(source, raw) == None
    ensures raw.id.Some? && raw.body.Some? && raw.updatedAt.Some? && raw.updatedAt.value != "" ==>
              BuildItem(source, raw) == Some(Item(Key(raw.updatedAt.value, source, raw.id.value), raw.body.value))
    ensures (raw.updatedAt.None? || raw.updatedAt == Some("")) && raw.createdAt.None? ==> BuildItem(source, raw) == None
    ensures raw.id.Some? && raw.body.Some? && (raw.updatedAt.None? || raw.updatedAt == Some(""))
            && raw.createdAt.Some? ==>
              BuildItem(source, raw) == Some(Item(Key(raw.createdAt.value, source, raw.id.value), raw.body.value))
  {
  }

  /** A review is readable without a body: its stamp is that of its submission, else of its update, and a missing or
      blank body is replaced by what its state says. */
  lemma ReviewFields(raw: Raw)
    ensures raw.id.None? ==> BuildItem(Review, raw) == None
    ensures (raw.submittedAt.None? || raw.submittedAt == Some("")) && raw.updatedAt.None? ==>
              BuildItem(Review, raw) == None
    ensures raw.id.Some? && raw.submittedAt.Some? && raw.submittedAt.value != "" ==>
              BuildItem(Review, raw).Some?
              && BuildItem(Review, raw).value.key == Key(raw.submittedAt.value, Review, raw.id.value)
    ensures raw.id.Some? && (raw.submittedAt.None? || raw.submittedAt == Some("")) && raw.updatedAt.Some? ==>
              BuildItem(Review, raw).Some?
              && BuildItem(Review, raw).value.key == Key(raw.updatedAt.value, Review, raw.id.value)
    ensures BuildItem(Review, raw).Some? ==>
              var text := BuildItem(Review, raw).value.body;
              if raw.body.Some? && !Blank(raw.body.value) then text == raw.body.value
              else text == match raw.state
                           case Some("APPROVED") => "(approved without comment)"
                           case Some("CHANGES_REQUESTED") => "(changes requested without comment)"
                           case _ => "(review without comment)"
  {
    if raw.body.Some? {
      BlankOrNot(raw.body.value);
    }
  }

  lemma BlankOrNot(s: string)
    ensures NonBlank(s) <==> !Blank(s)
  {
  }

  // ---- Pages ----------------------------------------------------------------

  /** There is a next page exactly when the next page has something on it; a page never has more than a hundred entries,
      nor more than the limit. */
  lemma NextPageIff<T>(list: seq<T>, n: int, perPage: nat)
    requires n >= 1 && perPage >= 1
    ensures HasNext(list, n, perPage) <==> PageOf(list, n + 1, perPage) != []
    ensures |PageOf(list, n, perPage)| <= perPage
  {
    NextPageStart(n, perPage);
    hide PageStart;
  }

  lemma PageSize(limit: nat)
    ensures PerPage(limit) == if limit <= 100 then limit else 100
  {
  }

  /** An offset counts from the start of the page, or from its end when negative, and never reaches outside it. */
  lemma RestOfPage<T>(page: seq<T>, offset: int, i: nat)
    ensures var from := if offset >= |page| then |page| else if offset >= 0 then offset
                        else if offset + |page| >= 0 then offset + |page| else 0;
            && |After(page, offset)| == |page| - from
            && (i < |page| - from ==> After(page, offset)[i] == page[from + i])
  {
  }

  /** Tab to carriage return, the four separators, and the space. */
  lemma SpaceIff(c: char)
    ensures IsSpace(c) <==> c as int in [9, 10, 11, 12, 13, 28, 29, 30, 31, 32]
  {
  }
}

/**
 * `Segment` (src/stream/segment.rs): one media segment of a live playlist,
 * ordered by its discontinuity sequence and then its media sequence.
 */
module Segments {
  import opened Wrappers
  import opened Text
  import opened Ranking
  import opened MediaFormats
  import opened Remote

  datatype Segment = Segment(
    data: RemoteData,
    disconSeq: nat,
    mediaSeq: nat,
    format: MediaFormat,
    initialization: Option<RemoteData>)

  /** `Segment::url` */
  function Url(s: Segment): (u: string)
    ensures u == s.data.url
  {
    s.data.url
  }

  /** `(discon_seq, seq)` is lexicographically below `(d, q)`. */
  predicate KeyBelow(a: (nat, nat), b: (nat, nat)) {
    a.0 < b.0 || (a.0 == b.0 && a.1 < b.1)
  }

  function Key(s: Segment): (nat, nat) {
    (s.disconSeq, s.mediaSeq)
  }

  /** `Segment::cmp`: the tuple `(discon_seq, seq)` compared lexicographically; nothing else is looked at. */
  function Cmp(a: Segment, b: Segment): (o: Ordering)
    ensures o == Less <==> KeyBelow(Key(a), Key(b))
    ensures o == Greater <==> KeyBelow(Key(b), Key(a))
    ensures o == Equal <==> Key(a) == Key(b)
  {
    var first := IntCmp(a.disconSeq, b.disconSeq);
    if first != Equal then first else IntCmp(a.mediaSeq, b.mediaSeq)
  }

  /** `Segment::partial_cmp`: always defined. */
  function PartialCmp(a: Segment, b: Segment): (o: Option<Ordering>)
    ensures o.Some? && o.value == Cmp(a, b)
  {
    Some(Cmp(a, b))
  }

  /** `cmp` is a total order on the keys: antisymmetric and transitive. */
  lemma CmpIsTotalOrder(a: Segment, b: Segment, c: Segment)
    ensures Cmp(a, b) == Less <==> Cmp(b, a) == Greater
    ensures Cmp(a, b) == Equal <==> Cmp(b, a) == Equal
    ensures Cmp(a, b) == Less && Cmp(b, c) == Less ==> Cmp(a, c) == Less
    ensures Cmp(a, b) != Greater && Cmp(b, c) != Greater ==> Cmp(a, c) != Greater
  {
  }

  /**
   * The derived `==` compares every field while `cmp` compares only the
   * key: two segments can be `Equal` in the order and still differ.
   */
  lemma CmpEqualIsNotEquality()
    ensures exists a: Segment, b: Segment :: Cmp(a, b) == Equal && a != b
  {
    var data := RemoteData("https://example.com/0.ts", None);
    var a := Segment(data, 0, 7, Unknown, None);
    var b := Segment(data, 0, 7, MpegTs, None);
    assert Cmp(a, b) == Equal && a != b;
  }

  /**
   * `Segment::id`: `d`, the discontinuity sequence zero-padded to ten
   * digits, `s`, the media sequence zero-padded to ten digits. The id has
   * its fixed width of 22 exactly when both numbers fit in ten digits, and
   * then each number reads back from its place.
   */
  function Id(s: Segment): (r: string)
    ensures |r| >= 22 && r[0] == 'd'
    ensures |r| == 22 <==> |NatToString(s.disconSeq)| <= 10 && |NatToString(s.mediaSeq)| <= 10
    ensures |r| == 22 ==> (r[11] == 's' && AllDigits(r[1..11]) && AllDigits(r[12..])
      && DigitsValue(r[1..11]) == s.disconSeq && DigitsValue(r[12..]) == s.mediaSeq)
  {
    var d, q := ZeroPad(s.disconSeq, 10), ZeroPad(s.mediaSeq, 10);
    var r := "d" + d + "s" + q;
    assert r[1..1 + |d|] == d;
    assert r[2 + |d|..] == q;
    r
  }

  /** Two segments share an id exactly when `cmp` calls them equal, however large the numbers. */
  lemma IdIdentifiesKey(a: Segment, b: Segment)
    ensures Id(a) == Id(b) <==> Cmp(a, b) == Equal
  {
    if Id(a) == Id(b) {
      var da, qa := ZeroPad(a.disconSeq, 10), ZeroPad(a.mediaSeq, 10);
      var db, qb := ZeroPad(b.disconSeq, 10), ZeroPad(b.mediaSeq, 10);
      SeparatedDigits(da, qa, db, qb);
    }
  }

  /** `d` + digits + `s` + digits splits back into its two runs of digits. */
  lemma SeparatedDigits(da: string, qa: string, db: string, qb: string)
    requires AllDigits(da) && AllDigits(qa) && AllDigits(db) && AllDigits(qb)
    requires "d" + da + "s" + qa == "d" + db + "s" + qb
    ensures da == db && qa == qb
  {
    var x, y := "d" + da + "s" + qa, "d" + db + "s" + qb;
    if |da| < |db| {
      SeparatorPosition(da, qa, db, qb);
      assert false;
    } else if |db| < |da| {
      SeparatorPosition(db, qb, da, qa);
      assert false;
    } else {
      assert da == x[1..1 + |da|] == y[1..1 + |db|] == db;
      assert qa == x[2 + |da|..] == y[2 + |db|..] == qb;
    }
  }

  lemma SeparatorPosition(da: string, qa: string, db: string, qb: string)
    requires |da| < |db|
    ensures ("d" + da + "s" + qa)[1 + |da|] == 's'
    ensures ("d" + db + "s" + qb)[1 + |da|] == db[|da|]
  {
  }
}

/**
 * internal/uniquename/text.go: names cut to a number of UTF-8 bytes at grapheme boundaries. A text is
 * given by its graphemes; how text splits into graphemes is left open.
 */
module Text {
  import opened Options
  import opened Utf8

  /** Length in UTF-8. */
  function Utf8Length(c: char): (n: nat)
    ensures 1 <= n <= 4
  {
    var code := c as int;
    if code < 0x80 then 1 else if code < 0x800 then 2 else if code < 0x1_0000 then 3 else 4
  }

  function Bytes(s: string): nat {
    if s == [] then 0 else Bytes(s[..|s| - 1]) + Utf8Length(s[|s| - 1])
  }

  lemma {:induction false} BytesConcat(a: string, b: string)
    ensures Bytes(a + b) == Bytes(a) + Bytes(b)
  {
    if b == [] {
      assert a + b == a;
    } else {
      var n := |b| - 1;
      BytesConcat(a, b[..n]);
      assert (a + b)[..|a + b| - 1] == a + b[..n];
    }
  }

  /** The length of a character is that of its encoding. */
  lemma Utf8LengthIsEncoded(c: char)
    ensures Utf8Length(c) == |Encoded(c)|
    ensures Utf8Length(c) == 1 <==> (c as int) < 0x80
    ensures Utf8Length(c) == 2 <==> 0x80 <= (c as int) < 0x800
    ensures Utf8Length(c) == 3 <==> 0x800 <= (c as int) < 0x1_0000
    ensures Utf8Length(c) == 4 <==> 0x1_0000 <= (c as int)
  {
  }

  /** Bytes is the number of bytes that a text is encoded in, from which it can be read back. */
  lemma {:induction false} BytesAreEncoded(s: string)
    ensures Bytes(s) == |EncodedText(s)| && DecodedText(EncodedText(s)) == Some(s)
  {
    TextRoundTrip(s);
    if s != [] {
      BytesAreEncoded(s[1..]);
      BytesConcat([s[0]], s[1..]);
      assert [s[0]] + s[1..] == s;
      Utf8LengthIsEncoded(s[0]);
    }
  }

  /** "a\u0308" has three bytes, of which the second character takes two. */
  lemma UmlautHasThreeBytes()
    ensures Bytes(['a', '\U{0308}']) == 3 && EncodedText(['a', '\U{0308}']) == [0x61, 0xcc, 0x88]
  {
    assert ['a', '\U{0308}'][1..] == ['\U{0308}'];
    BytesAreEncoded(['a', '\U{0308}']);
  }

  function Joined(pieces: seq<string>): string {
    if pieces == [] then [] else Joined(pieces[..|pieces| - 1]) + pieces[|pieces| - 1]
  }

  lemma {:induction false} JoinedConcat(a: seq<string>, b: seq<string>)
    ensures Joined(a + b) == Joined(a) + Joined(b)
  {
    if b == [] {
      assert a + b == a;
    } else {
      var n := |b| - 1;
      JoinedConcat(a, b[..n]);
      assert (a + b)[..|a + b| - 1] == a + b[..n];
    }
  }

  /** Bytes of the first k pieces. */
  function End(pieces: seq<string>, k: nat): nat
    requires k <= |pieces|
  {
    Bytes(Joined(pieces[..k]))
  }

  lemma EndStep(pieces: seq<string>, k: nat)
    requires k < |pieces|
    ensures End(pieces, k + 1) == End(pieces, k) + Bytes(pieces[k])
  {
    assert pieces[..k + 1][..k] == pieces[..k];
    BytesConcat(Joined(pieces[..k]), pieces[k]);
  }

  lemma {:induction false} EndMonotone(pieces: seq<string>, j: nat, k: nat)
    requires j <= k <= |pieces|
    ensures End(pieces, j) <= End(pieces, k)
  {
    if j < k {
      EndMonotone(pieces, j, k - 1);
      EndStep(pieces, k - 1);
    }
  }

  lemma TailBytes(pieces: seq<string>, k: nat)
    requires k <= |pieces|
    ensures Bytes(Joined(pieces)) == End(pieces, k) + Bytes(Joined(pieces[k..]))
    ensures Joined(pieces) == Joined(pieces[..k]) + Joined(pieces[k..])
  {
    hide Bytes, Joined;
    var a, b := pieces[..k], pieces[k..];
    JoinedConcat(a, b);
    BytesConcat(Joined(a), Joined(b));
    assert pieces == a + b;
  }

  /** The bytes that are left of a text cut to its first p and from its q-th piece on. */
  function CutBytes(prefix: seq<string>, middle: string, suffix: seq<string>, p: nat, q: nat): nat
    requires p <= |prefix| && q <= |suffix|
  {
    End(prefix, p) + Bytes(middle) + Bytes(Joined(suffix[q..]))
  }

  function Cut(prefix: seq<string>, middle: string, suffix: seq<string>, p: nat, q: nat): string
    requires p <= |prefix| && q <= |suffix|
  {
    Joined(prefix[..p]) + middle + Joined(suffix[q..])
  }

  /**
   * The best cut: of the cuts that fit and keep the suffix whole it keeps the most of the prefix; if
   * none fits, it drops the prefix and as little of the suffix as possible.
   */
  ghost predicate BestCut(prefix: seq<string>, middle: string, suffix: seq<string>, max: int, p: nat, q: nat) {
    && p <= |prefix| && q <= |suffix| && CutBytes(prefix, middle, suffix, p, q) <= max
    && (forall p' | 0 <= p' <= |prefix| && CutBytes(prefix, middle, suffix, p', 0) <= max :: p' <= p && q == 0)
    && (forall q' | 0 <= q' <= |suffix| && CutBytes(prefix, middle, suffix, 0, q') <= max :: q <= q')
    && (0 < q ==> p == 0)
  }

  lemma CutBytesAreBytes(prefix: seq<string>, middle: string, suffix: seq<string>, p: nat, q: nat)
    requires p <= |prefix| && q <= |suffix|
    ensures Bytes(Cut(prefix, middle, suffix, p, q)) == CutBytes(prefix, middle, suffix, p, q)
  {
    hide Bytes, Joined;
    BytesConcat(Joined(prefix[..p]), middle);
    BytesConcat(Joined(prefix[..p]) + middle, Joined(suffix[q..]));
  }

  /** There is only one best cut. */
  lemma BestCutIsUnique(prefix: seq<string>, middle: string, suffix: seq<string>, max: int, p: nat, q: nat, p': nat,
                        q': nat)
    requires BestCut(prefix, middle, suffix, max, p, q) && BestCut(prefix, middle, suffix, max, p', q')
    ensures p == p' && q == q'
  {
    EndMonotone(prefix, 0, p);
    EndMonotone(prefix, 0, p');
  }

  /** combineWithMaxLen; None is the panic for a middle part that does not fit. */
  method CombineWithMaxLen(prefix: seq<string>, middle: string, suffix: seq<string>, max: int)
    returns (r: Option<string>, p: nat, q: nat)
    ensures r == None <==> max < Bytes(middle)
    ensures r != None ==> BestCut(prefix, middle, suffix, max, p, q) && r == Some(Cut(prefix, middle, suffix, p, q))
  {
    p, q := 0, 0;
    if max < Bytes(middle) {
      return None, 0, 0;
    }
    var whole := Bytes(middle) + Bytes(Joined(suffix));
    var end := 0;
    while p < |prefix|
      invariant p <= |prefix| && end == End(prefix, p)
      invariant 0 < p ==> end + whole <= max
    {
      EndStep(prefix, p);
      if end + Bytes(prefix[p]) + whole > max {
        break;
      }
      end := end + Bytes(prefix[p]);
      p := p + 1;
    }
    var start := 0;
    while q < |suffix| && end + whole - start > max
      invariant q <= |suffix| && start == End(suffix, q)
      invariant forall k | 0 <= k < q :: end + whole - End(suffix, k) > max
    {
      EndStep(suffix, q);
      start := start + Bytes(suffix[q]);
      q := q + 1;
    }
    r := Some(Cut(prefix, middle, suffix, p, q));
    BestByLoops(prefix, middle, suffix, max, p, q);
  }

  /** What the two loops establish makes the cut best. */
  lemma BestByLoops(prefix: seq<string>, middle: string, suffix: seq<string>, max: int, p: nat, q: nat)
    requires p <= |prefix| && q <= |suffix| && Bytes(middle) <= max
    requires var whole := Bytes(middle) + Bytes(Joined(suffix));
      && (0 < p ==> End(prefix, p) + whole <= max)
      && (p < |prefix| ==> End(prefix, p + 1) + whole > max)
      && (forall k | 0 <= k < q :: End(prefix, p) + whole - End(suffix, k) > max)
      && (q < |suffix| ==> End(prefix, p) + whole - End(suffix, q) <= max)
    ensures BestCut(prefix, middle, suffix, max, p, q)
  {
    TailBytes(suffix, q);
    TailBytes(suffix, 0);
    if q == |suffix| {
      assert suffix[q..] == [];
    }
    assert 0 < q ==> End(prefix, p) + Bytes(middle) + Bytes(Joined(suffix)) - End(suffix, 0) > max;
    forall p' | 0 <= p' <= |prefix| && CutBytes(prefix, middle, suffix, p', 0) <= max
      ensures p' <= p && q == 0
    {
      if p < p' {
        EndMonotone(prefix, p + 1, p');
      }
    }
    forall q' | 0 <= q' <= |suffix| && CutBytes(prefix, middle, suffix, 0, q') <= max
      ensures q <= q'
    {
      TailBytes(suffix, q');
    }
  }
}

/** The stack fingerprint's framing: what is fed to the hash determines the fields, as a multiset. */
module Fingerprint {
  import opened Archives

  type Bytes = seq<Byte>

  datatype Field = Field(tag: Bytes, value: Bytes)

  // ----- The order `sorted` uses -----

  predicate BytesBefore(a: Bytes, b: Bytes)
  {
    if b == [] then false
    else if a == [] then true
    else a[0] < b[0] || (a[0] == b[0] && BytesBefore(a[1..], b[1..]))
  }

  predicate Before(a: Field, b: Field)
  {
    BytesBefore(a.tag, b.tag) || (a.tag == b.tag && BytesBefore(a.value, b.value))
  }

  lemma {:induction false} BytesTotal(a: Bytes, b: Bytes)
    ensures a == b || BytesBefore(a, b) || BytesBefore(b, a)
    ensures !(BytesBefore(a, b) && BytesBefore(b, a)) && !BytesBefore(a, a)
  {
    if a != [] { BytesTotal(a[1..], a[1..]); }
    if a != [] && b != [] {
      BytesTotal(a[1..], b[1..]);
      assert a == [a[0]] + a[1..] && b == [b[0]] + b[1..];
    }
  }

  lemma Total(a: Field, b: Field)
    ensures a == b || Before(a, b) || Before(b, a)
    ensures !(Before(a, b) && Before(b, a)) && !Before(a, a)
  {
    BytesTotal(a.tag, b.tag);
    BytesTotal(a.value, b.value);
    BytesTotal(a.tag, a.tag);
    BytesTotal(a.value, a.value);
  }

  predicate Sorted(s: seq<Field>)
  {
    forall i, j | 0 <= i < j < |s| :: !Before(s[j], s[i])
  }

  /** `sorted(fields)`. */
  ghost predicate SortedOf(s: seq<Field>, fields: seq<Field>)
  {
    Sorted(s) && multiset(s) == multiset(fields)
  }

  lemma SameFirst(s: seq<Field>, t: seq<Field>)
    requires Sorted(s) && Sorted(t) && multiset(s) == multiset(t) && s != [] && t != []
    ensures s[0] == t[0]
  {
    hide Before;
    assert s[0] in multiset(t) && t[0] in multiset(s);
    var i :| 0 <= i < |t| && t[i] == s[0];
    var j :| 0 <= j < |s| && s[j] == t[0];
    Total(s[0], t[0]);
  }

  lemma Tail(s: seq<Field>)
    requires s != [] && Sorted(s)
    ensures s == [s[0]] + s[1..] && Sorted(s[1..]) && multiset(s[1..]) == multiset(s) - multiset{s[0]}
  {
    hide Before;
    assert s == [s[0]] + s[1..];
  }

  /** Sorting leaves nothing but the multiset. */
  lemma {:induction false} SortedIsUnique(s: seq<Field>, t: seq<Field>)
    requires Sorted(s) && Sorted(t) && multiset(s) == multiset(t)
    ensures s == t
    decreases |s|
  {
    hide Before, Sorted;
    assert |multiset(s)| == |multiset(t)|;
    if s != [] {
      SameFirst(s, t);
      Tail(s);
      Tail(t);
      SortedIsUnique(s[1..], t[1..]);
    }
  }

  // ----- Framing -----

  const LIMIT := 0x1_0000_0000_0000_0000

  /** `n.to_bytes(width, "big")`. */
  function BigEndian(n: nat, width: nat): (r: Bytes)
    ensures |r| == width
  {
    if width == 0 then [] else BigEndian(n / 256, width - 1) + [(n % 256) as Byte]
  }

  function Number(b: Bytes): nat
  {
    if b == [] then 0 else Number(b[..|b| - 1]) * 256 + b[|b| - 1] as nat
  }

  function Power(width: nat): nat { if width == 0 then 1 else 256 * Power(width - 1) }

  lemma {:induction false} NumberReadsBack(n: nat, width: nat)
    requires n < Power(width)
    ensures Number(BigEndian(n, width)) == n
  {
    if width > 0 {
      NumberReadsBack(n / 256, width - 1);
      assert BigEndian(n, width)[..width - 1] == BigEndian(n / 256, width - 1);
    }
  }

  lemma EightBytes()
    ensures Power(8) == LIMIT
  {
    assert Power(4) == 0x1_0000_0000;
  }

  function Framed(b: Bytes): Bytes { BigEndian(|b|, 8) + b }

  /** The bytes fed to the hash. */
  function Stream(fields: seq<Field>): Bytes
  {
    if fields == [] then [] else Framed(fields[0].tag) + Framed(fields[0].value) + Stream(fields[1..])
  }

  lemma {:induction false} StreamConcat(a: seq<Field>, b: seq<Field>)
    ensures Stream(a + b) == Stream(a) + Stream(b)
  {
    if a == [] {
      assert a + b == b;
    } else {
      assert (a + b)[1..] == a[1..] + b;
      StreamConcat(a[1..], b);
    }
  }

  /** The loop of `stack_fingerprint` over the sorted fields. */
  method FeedHash(sorted: seq<Field>) returns (fed: Bytes)
    ensures fed == Stream(sorted)
  {
    fed := [];
    for i := 0 to |sorted|
      invariant fed == Stream(sorted[..i])
    {
      var field := sorted[i];
      assert sorted[..i + 1] == sorted[..i] + [field];
      StreamConcat(sorted[..i], [field]);
      assert Stream([field]) == Framed(field.tag) + Framed(field.value);
      fed := fed + BigEndian(|field.tag|, 8);
      fed := fed + field.tag;
      fed := fed + BigEndian(|field.value|, 8);
      fed := fed + field.value;
    }
    assert sorted[..|sorted|] == sorted;
  }

  predicate Fits(fields: seq<Field>)
  {
    forall i | 0 <= i < |fields| :: |fields[i].tag| < LIMIT && |fields[i].value| < LIMIT
  }

  // ----- The decoder -----

  datatype Chunk = Chunk(content: Bytes, rest: Bytes) | Cut

  function TakeFrame(b: Bytes): (r: Chunk)
    ensures r.Chunk? ==> |r.rest| < |b|
  {
    if |b| < 8 then Cut
    else
      var n := Number(b[..8]);
      if |b| < 8 + n then Cut else Chunk(b[8..8 + n], b[8 + n..])
  }

  function Decode(b: Bytes): seq<Field>
    decreases |b|
  {
    var tag := TakeFrame(b);
    if tag.Cut? then []
    else
      var value := TakeFrame(tag.rest);
      if value.Cut? then [] else [Field(tag.content, value.content)] + Decode(value.rest)
  }

  lemma FrameReadsBack(content: Bytes, rest: Bytes)
    requires |content| < LIMIT
    ensures TakeFrame(Framed(content) + rest) == Chunk(content, rest)
  {
    EightBytes();
    NumberReadsBack(|content|, 8);
    var b := Framed(content) + rest;
    assert b[..8] == BigEndian(|content|, 8);
    assert b[8..8 + |content|] == content && b[8 + |content|..] == rest;
  }

  lemma {:induction false} StreamReadsBack(fields: seq<Field>)
    requires Fits(fields)
    ensures Decode(Stream(fields)) == fields
  {
    if fields != [] {
      var rest := Stream(fields[1..]);
      assert Stream(fields) == Framed(fields[0].tag) + (Framed(fields[0].value) + rest);
      FrameReadsBack(fields[0].tag, Framed(fields[0].value) + rest);
      FrameReadsBack(fields[0].value, rest);
      StreamReadsBack(fields[1..]);
      assert fields == [fields[0]] + fields[1..];
    } else {
      assert TakeFrame([]) == Cut;
    }
  }

  /** Two field lists feed the hash the same bytes exactly when they hold the same fields, each as
      often, in whatever order. */
  lemma StreamDeterminesFields(a: seq<Field>, b: seq<Field>, sortedA: seq<Field>, sortedB: seq<Field>)
    requires Fits(a) && Fits(b) && SortedOf(sortedA, a) && SortedOf(sortedB, b)
    ensures Stream(sortedA) == Stream(sortedB) <==> multiset(a) == multiset(b)
  {
    StillFits(a, sortedA);
    StillFits(b, sortedB);
    StreamReadsBack(sortedA);
    StreamReadsBack(sortedB);
    if multiset(a) == multiset(b) { SortedIsUnique(sortedA, sortedB); }
  }

  lemma StillFits(fields: seq<Field>, s: seq<Field>)
    requires Fits(fields) && multiset(s) == multiset(fields)
    ensures Fits(s)
  {
    forall i | 0 <= i < |s| ensures |s[i].tag| < LIMIT && |s[i].value| < LIMIT {
      assert s[i] in multiset(fields);
    }
  }
}

/** Strings in the order `sorted` puts them in: by code point, the shorter first. */
module StringOrder {

  predicate Earlier(a: string, b: string)
  {
    if b == "" then false
    else if a == "" then true
    else a[0] < b[0] || (a[0] == b[0] && Earlier(a[1..], b[1..]))
  }

  lemma {:induction false} EarlierTotal(a: string, b: string)
    ensures a == b || Earlier(a, b) || Earlier(b, a)
    ensures !(Earlier(a, b) && Earlier(b, a)) && !Earlier(a, a)
  {
    if a != "" { EarlierTotal(a[1..], a[1..]); }
    if a != "" && b != "" {
      EarlierTotal(a[1..], b[1..]);
      assert a == [a[0]] + a[1..] && b == [b[0]] + b[1..];
    }
  }

  lemma {:induction false} EarlierTransitive(a: string, b: string, c: string)
    requires Earlier(a, b) && Earlier(b, c)
    ensures Earlier(a, c)
  {
    if a != "" && a[0] == b[0] && b[0] == c[0] { EarlierTransitive(a[1..], b[1..], c[1..]); }
  }

  ghost predicate IsLeast(names: set<string>, least: string)
  {
    least in names && forall w | w in names :: w == least || Earlier(least, w)
  }

  lemma {:induction false} LeastExists(names: set<string>) returns (least: string)
    requires names != {}
    ensures IsLeast(names, least)
    decreases names
  {
    var w :| w in names;
    if names == {w} {
      least := w;
    } else {
      var other := LeastExists(names - {w});
      EarlierTotal(w, other);
      least := if Earlier(w, other) then w else other;
      forall v | v in names ensures v == least || Earlier(least, v) {
        if least == w && v != w && v != other { EarlierTransitive(w, other, v); }
      }
    }
  }

  lemma LeastIsOne(names: set<string>, a: string, b: string)
    requires IsLeast(names, a) && IsLeast(names, b)
    ensures a == b
  {
    EarlierTotal(a, b);
  }

  /** The members in ascending order. */
  ghost function Ascending(names: set<string>): seq<string>
  {
    if names == {} then []
    else
      assert exists w :: IsLeast(names, w) by { var w := LeastExists(names); }
      var least :| IsLeast(names, least);
      [least] + Ascending(names - {least})
  }

  lemma {:induction false} AscendingMembers(names: set<string>)
    ensures forall w :: w in Ascending(names) <==> w in names
    ensures forall i, j | 0 <= i < j < |Ascending(names)| :: Earlier(Ascending(names)[i], Ascending(names)[j])
    decreases names
  {
    if names != {} {
      var least := Ascending(names)[0];
      var rest := names - {least};
      AscendingMembers(rest);
      assert Ascending(names) == [least] + Ascending(rest);
      forall i, j | 0 <= i < j < |Ascending(names)|
        ensures Earlier(Ascending(names)[i], Ascending(names)[j])
      {
        assert Ascending(names)[j] == Ascending(rest)[j - 1] && Ascending(rest)[j - 1] in Ascending(rest);
        if i > 0 { assert Ascending(names)[i] == Ascending(rest)[i - 1]; }
      }
    }
  }

  /** `sorted` over a set of strings. */
  method SortedStrings(names: set<string>) returns (sorted: seq<string>)
    ensures sorted == Ascending(names)
  {
    sorted := [];
    var rest := names;
    while rest != {}
      invariant sorted + Ascending(rest) == Ascending(names)
      decreases rest
    {
      ghost var witnessed := LeastExists(rest);
      var least :| least in rest && forall w | w in rest :: w == least || Earlier(least, w);
      LeastIsOne(rest, least, Ascending(rest)[0]);
      assert Ascending(rest) == [least] + Ascending(rest - {least});
      assert sorted + Ascending(rest) == sorted + [least] + Ascending(rest - {least});
      sorted, rest := sorted + [least], rest - {least};
    }
  }
}

/**
 * The bone picker (src/PoserHud.tsx:412-419): the known bone names, sorted, minus the
 * names the selected keyframe already poses. The list of known bones lives in a file
 * (src/allBones) that is not part of this model, so it is a parameter here.
 */
module Bones {

  /** JavaScript's default string order: character by character, a prefix first. */
  predicate StrLeq(a: string, b: string)
  {
    if |a| == 0 then true
    else if |b| == 0 then false
    else if a[0] != b[0] then a[0] < b[0]
    else StrLeq(a[1..], b[1..])
  }

  lemma {:induction false} StrLeqTotal(a: string, b: string)
    ensures StrLeq(a, b) || StrLeq(b, a)
  {
    if |a| > 0 && |b| > 0 && a[0] == b[0] {
      StrLeqTotal(a[1..], b[1..]);
    }
  }

  lemma {:induction false} StrLeqTrans(a: string, b: string, c: string)
    requires StrLeq(a, b) && StrLeq(b, c)
    ensures StrLeq(a, c)
  {
    if |a| > 0 && |b| > 0 && |c| > 0 && a[0] == b[0] == c[0] {
      StrLeqTrans(a[1..], b[1..], c[1..]);
    }
  }

  ghost predicate Sorted(s: seq<string>)
  {
    forall i, j :: 0 <= i < j < |s| ==> StrLeq(s[i], s[j])
  }

  /** Putting a lower bound in front of a sorted sequence keeps it sorted. */
  lemma SortedCons(h: string, t: seq<string>)
    requires Sorted(t)
    requires forall e :: e in t ==> StrLeq(h, e)
    ensures Sorted([h] + t)
  {
    var s := [h] + t;
    forall i, j | 0 <= i < j < |s| ensures StrLeq(s[i], s[j]) {
      if i == 0 {
        assert s[j] == t[j - 1] && s[j] in t;
      } else {
        assert s[i] == t[i - 1] && s[j] == t[j - 1];
      }
    }
  }

  function Insert(x: string, s: seq<string>): (r: seq<string>)
    requires Sorted(s)
    ensures Sorted(r)
    ensures multiset(r) == multiset(s) + multiset{x}
  {
    if |s| == 0 then [x]
    else if StrLeq(x, s[0]) then
      assert forall e :: e in s ==> StrLeq(x, e) by {
        forall e | e in s ensures StrLeq(x, e) {
          var k :| 0 <= k < |s| && s[k] == e;
          if k > 0 { StrLeqTrans(x, s[0], e); }
        }
      }
      SortedCons(x, s);
      [x] + s
    else
      var rest := Insert(x, s[1..]);
      assert s == [s[0]] + s[1..];
      assert forall e :: e in rest ==> StrLeq(s[0], e) by {
        forall e | e in rest ensures StrLeq(s[0], e) {
          assert e in multiset(rest);
          if e == x {
            StrLeqTotal(x, s[0]);
          } else {
            assert e in multiset(s[1..]);
            var k :| 0 <= k < |s[1..]| && s[1..][k] == e;
            assert s[k + 1] == e;
          }
        }
      }
      SortedCons(s[0], rest);
      [s[0]] + rest
  }

  /** Insertion sort, standing in for Array.prototype.sort: a sorted permutation. */
  function Sort(s: seq<string>): (r: seq<string>)
    ensures Sorted(r)
    ensures multiset(r) == multiset(s)
  {
    if |s| == 0 then []
    else
      assert s == [s[0]] + s[1..];
      Insert(s[0], Sort(s[1..]))
  }

  /** Array.prototype.filter with "is not one of names". */
  function Without(s: seq<string>, names: set<string>): (r: seq<string>)
    ensures forall b :: b in r <==> b in s && b !in names
    ensures forall b :: multiset(r)[b] == if b in names then 0 else multiset(s)[b]
    ensures Sorted(s) ==> Sorted(r)
  {
    if |s| == 0 then []
    else
      var rest := Without(s[1..], names);
      assert s == [s[0]] + s[1..];
      assert Sorted(s) ==> Sorted(s[1..]) && forall e :: e in rest ==> StrLeq(s[0], e) by {
        if Sorted(s) {
          forall e | e in rest ensures StrLeq(s[0], e) {
            var k :| 0 <= k < |s[1..]| && s[1..][k] == e;
            assert s[k + 1] == e;
          }
        }
      }
      if s[0] in names then rest
      else
        assert Sorted(s) ==> Sorted([s[0]] + rest) by {
          if Sorted(s) { SortedCons(s[0], rest); }
        }
        [s[0]] + rest
  }

  /**
   * The names offered by the picker, given the known bones and the bone names of the
   * selected keyframe's pose (empty when no keyframe is selected).
   */
  function RemainingBones(known: seq<string>, current: set<string>): (r: seq<string>)
    ensures Sorted(r)
    ensures forall b :: b in r ==> b in known && b !in current
    ensures forall b :: b in known && b !in current ==> b in r
    ensures forall b :: multiset(r)[b] == if b in current then 0 else multiset(known)[b]
  {
    var sorted := Sort(known);
    assert forall b :: b in sorted <==> b in known by {
      forall b ensures b in sorted <==> b in known {
        assert b in sorted <==> b in multiset(sorted);
        assert b in known <==> b in multiset(known);
      }
    }
    Without(sorted, current)
  }
}

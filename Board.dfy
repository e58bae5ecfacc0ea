/**
 * The order in which the board lists a sprint's issues: ascending by status,
 * then ascending by the issue's position `order` inside its column. Status
 * strings are compared character by character.
 */
module Board {
  import opened Domain

  /** Lexicographic "a is not after b" on strings. */
  predicate TextLe(a: string, b: string)
    decreases |a|
  {
    if a == [] then true
    else if b == [] then false
    else if a[0] != b[0] then a[0] < b[0]
    else TextLe(a[1..], b[1..])
  }

  lemma {:induction false} TextLeTotal(a: string, b: string)
    ensures TextLe(a, b) || TextLe(b, a)
    decreases |a|
  {
    if a != [] && b != [] && a[0] == b[0] {
      TextLeTotal(a[1..], b[1..]);
    }
  }

  lemma {:induction false} TextLeAntisymmetric(a: string, b: string)
    requires TextLe(a, b) && TextLe(b, a)
    ensures a == b
    decreases |a|
  {
    if a != [] && b != [] {
      TextLeAntisymmetric(a[1..], b[1..]);
      assert a == [a[0]] + a[1..] && b == [b[0]] + b[1..];
    }
  }

  lemma {:induction false} TextLeTransitive(a: string, b: string, c: string)
    requires TextLe(a, b) && TextLe(b, c)
    ensures TextLe(a, c)
    decreases |a|
  {
    if a != [] && b != [] && c != [] && a[0] == b[0] && b[0] == c[0] {
      TextLeTransitive(a[1..], b[1..], c[1..]);
    }
  }

  /** `x` may be listed before `y`: the sort key (status, order). */
  predicate KeyLe(x: Issue, y: Issue)
  {
    if x.status == y.status then x.order <= y.order else TextLe(x.status, y.status)
  }

  lemma KeyLeTotal(x: Issue, y: Issue)
    ensures KeyLe(x, y) || KeyLe(y, x)
  {
    TextLeTotal(x.status, y.status);
  }

  lemma KeyLeTransitive(x: Issue, y: Issue, z: Issue)
    requires KeyLe(x, y) && KeyLe(y, z)
    ensures KeyLe(x, z)
  {
    if x.status != y.status && y.status != z.status {
      TextLeTransitive(x.status, y.status, z.status);
      if x.status == z.status {
        TextLeAntisymmetric(x.status, y.status);
      }
    }
  }

  /** Listed in board order. */
  predicate Sorted(s: seq<Issue>)
  {
    forall i, j :: 0 <= i < j < |s| ==> KeyLe(s[i], s[j])
  }

  /** Puts `x` into the sorted list `s` at a place that keeps it sorted. */
  function Insert(x: Issue, s: seq<Issue>): (r: seq<Issue>)
    requires Sorted(s)
    ensures Sorted(r)
    ensures multiset(r) == multiset(s) + multiset{x}
  {
    if s == [] then [x]
    else if KeyLe(x, s[0]) then
      assert forall j :: 0 <= j < |s| ==> KeyLe(x, s[j]) by {
        forall j | 0 <= j < |s| ensures KeyLe(x, s[j]) {
          if j > 0 { KeyLeTransitive(x, s[0], s[j]); }
        }
      }
      [x] + s
    else
      KeyLeTotal(x, s[0]);
      var t := Insert(x, s[1..]);
      assert s == [s[0]] + s[1..];
      assert forall j :: 0 <= j < |t| ==> KeyLe(s[0], t[j]) by {
        forall j | 0 <= j < |t| ensures KeyLe(s[0], t[j]) {
          assert t[j] in multiset(t);
          if t[j] != x {
            assert t[j] in multiset(s[1..]);
            var m :| 0 <= m < |s[1..]| && s[1..][m] == t[j];
            assert s[m + 1] == t[j];
          }
        }
      }
      [s[0]] + t
  }
}

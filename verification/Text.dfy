/** Searching and sorting strings. */
module Text {

  /** The index of the first occurrence of c at or after i, or |s|. */
  function Find(s: string, c: char, i: nat): (n: nat)
    requires i <= |s|
    ensures i <= n <= |s| && (forall k :: i <= k < n ==> s[k] != c) && (n < |s| ==> s[n] == c)
    decreases |s| - i
  {
    if i == |s| || s[i] == c then i else Find(s, c, i + 1)
  }

  // ---- The order of strings ----

  /** The order of sort.Strings. */
  predicate Before(a: string, b: string) {
    b != "" && (a == "" || a[0] < b[0] || (a[0] == b[0] && Before(a[1..], b[1..])))
  }

  lemma {:induction false} BeforeTotal(a: string, b: string)
    ensures a == b || Before(a, b) || Before(b, a)
    ensures !(Before(a, b) && Before(b, a))
  {
    if a != "" && b != "" {
      BeforeTotal(a[1..], b[1..]);
      assert a == [a[0]] + a[1..] && b == [b[0]] + b[1..];
    }
  }

  lemma {:induction false} BeforeTransitive(a: string, b: string, c: string)
    requires Before(a, b) && Before(b, c)
    ensures Before(a, c)
  {
    if a != "" && a[0] == b[0] == c[0] {
      BeforeTransitive(a[1..], b[1..], c[1..]);
    }
  }

  ghost predicate Increasing(keys: seq<string>) {
    forall i, j :: 0 <= i < j < |keys| ==> Before(keys[i], keys[j])
  }

  /** The least of some strings. */
  method Least(keys: set<string>) returns (least: string)
    requires keys != {}
    ensures least in keys && forall k :: k in keys && k != least ==> Before(least, k)
  {
    least :| least in keys;
    var todo := keys - {least};
    while todo != {}
      invariant todo <= keys && least in keys && least !in todo
      invariant forall k :: k in keys && k !in todo && k != least ==> Before(least, k)
      decreases todo
    {
      var key :| key in todo;
      todo := todo - {key};
      BeforeTotal(key, least);
      if Before(key, least) {
        forall k | k in keys && k !in todo && k != key && k != least ensures Before(key, k) {
          BeforeTransitive(key, least, k);
        }
        least := key;
      }
    }
  }

  /** The strings in the order of sort.Strings. */
  method Sorted(keys: set<string>) returns (sorted: seq<string>)
    ensures Increasing(sorted) && forall k :: k in sorted <==> k in keys
  {
    sorted := [];
    var todo := keys;
    while todo != {}
      invariant todo <= keys && Increasing(sorted) && forall k :: k in sorted <==> k in keys && k !in todo
      invariant forall i, k :: 0 <= i < |sorted| && k in todo ==> Before(sorted[i], k)
      decreases todo
    {
      var least := Least(todo);
      sorted, todo := sorted + [least], todo - {least};
    }
  }
}

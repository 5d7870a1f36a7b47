/**
 * The order the month keys are sorted in. `localeCompare` on keys made of digits and '-'
 * agrees with code-point lexicographic order, which is what `Less` states.
 */
module Order {

  /** Lexicographic order on strings; a proper prefix comes first. */
  predicate Less(a: string, b: string)
  {
    if a == [] then b != []
    else if b == [] then false
    else if a[0] == b[0] then Less(a[1..], b[1..])
    else a[0] < b[0]
  }

  lemma {:induction false} LessIrreflexive(a: string)
    ensures !Less(a, a)
  {
    if a != [] {
      LessIrreflexive(a[1..]);
    }
  }

  lemma {:induction false} LessTrichotomy(a: string, b: string)
    ensures a == b || Less(a, b) || Less(b, a)
  {
    if a != [] && b != [] && a[0] == b[0] {
      LessTrichotomy(a[1..], b[1..]);
      if a[1..] == b[1..] {
        assert a == [a[0]] + a[1..] && b == [b[0]] + b[1..];
      }
    }
  }

  lemma {:induction false} LessAsymmetric(a: string, b: string)
    ensures !(Less(a, b) && Less(b, a))
  {
    if a != [] && b != [] && a[0] == b[0] {
      LessAsymmetric(a[1..], b[1..]);
    }
  }

  lemma {:induction false} LessTransitive(a: string, b: string, c: string)
    requires Less(a, b) && Less(b, c)
    ensures Less(a, c)
  {
    if a != [] && a[0] == b[0] && b[0] == c[0] {
      LessTransitive(a[1..], b[1..], c[1..]);
    }
  }

  /** "Not less" is transitive too: the order is total. */
  lemma NotLessTransitive(a: string, b: string, c: string)
    requires !Less(a, b) && !Less(b, c)
    ensures !Less(a, c)
  {
    LessTrichotomy(a, b);
    LessTrichotomy(b, c);
    if Less(a, c) {
      if a == b {
      } else if b == c {
      } else {
        LessTransitive(c, b, a);
        LessAsymmetric(a, c);
      }
    }
  }

  /** Largest key first, ties allowed. */
  ghost predicate Descending<T>(s: seq<T>, key: T -> string)
  {
    forall i, j :: 0 <= i < j < |s| ==> !Less(key(s[i]), key(s[j]))
  }

  /** Largest key first, no two keys equal. */
  ghost predicate StrictlyDescending<T>(s: seq<T>, key: T -> string)
  {
    forall i, j :: 0 <= i < j < |s| ==> Less(key(s[j]), key(s[i]))
  }

  ghost predicate KeysDistinct<T>(s: seq<T>, key: T -> string)
  {
    forall i, j :: 0 <= i < j < |s| ==> key(s[i]) != key(s[j])
  }

  /** Puts `x` in front of the first element whose key is not larger than its own. */
  function Insert<T>(x: T, s: seq<T>, key: T -> string): (r: seq<T>)
    requires Descending(s, key)
    ensures Descending(r, key)
    ensures multiset(r) == multiset(s) + multiset{x}
    ensures StrictlyDescending(s, key) && (forall e :: e in s ==> key(e) != key(x))
            ==> StrictlyDescending(r, key)
  {
    if s == [] then [x]
    else if !Less(key(x), key(s[0])) then
      InsertFrontKeepsOrder(x, s, key);
      [x] + s
    else
      TailKeepsOrder(x, s, key);
      var t := Insert(x, s[1..], key);
      InsertBehindKeepsOrder(x, s, key, t);
      [s[0]] + t
  }

  lemma TailKeepsOrder<T>(x: T, s: seq<T>, key: T -> string)
    requires s != [] && Descending(s, key)
    ensures Descending(s[1..], key)
    ensures StrictlyDescending(s, key) && (forall e :: e in s ==> key(e) != key(x))
            ==> StrictlyDescending(s[1..], key) && (forall e :: e in s[1..] ==> key(e) != key(x))
  {
  }

  lemma InsertFrontKeepsOrder<T>(x: T, s: seq<T>, key: T -> string)
    requires s != [] && Descending(s, key) && !Less(key(x), key(s[0]))
    ensures Descending([x] + s, key)
    ensures multiset([x] + s) == multiset(s) + multiset{x}
    ensures StrictlyDescending(s, key) && (forall e :: e in s ==> key(e) != key(x))
            ==> StrictlyDescending([x] + s, key)
  {
    var r := [x] + s;
    forall j | 0 < j < |r| ensures !Less(key(x), key(r[j])) {
      if j > 1 {
        NotLessTransitive(key(x), key(s[0]), key(s[j - 1]));
      }
    }
    if StrictlyDescending(s, key) && (forall e :: e in s ==> key(e) != key(x)) {
      forall j | 0 < j < |r| ensures Less(key(r[j]), key(x)) {
        assert r[j] in s;
        LessTrichotomy(key(x), key(r[j]));
      }
    }
  }

  lemma InsertBehindKeepsOrder<T>(x: T, s: seq<T>, key: T -> string, t: seq<T>)
    requires s != [] && Descending(s, key) && Less(key(x), key(s[0]))
    requires Descending(t, key) && multiset(t) == multiset(s[1..]) + multiset{x}
    requires StrictlyDescending(s[1..], key) && (forall e :: e in s[1..] ==> key(e) != key(x))
             ==> StrictlyDescending(t, key)
    ensures Descending([s[0]] + t, key)
    ensures multiset([s[0]] + t) == multiset(s) + multiset{x}
    ensures StrictlyDescending(s, key) && (forall e :: e in s ==> key(e) != key(x))
            ==> StrictlyDescending([s[0]] + t, key)
  {
    assert s == [s[0]] + s[1..];
    forall e | e in t ensures !Less(key(s[0]), key(e)) {
      if e == x {
        LessAsymmetric(key(x), key(s[0]));
      } else {
        MemberOfTail(s, e, t, x);
      }
    }
    if StrictlyDescending(s, key) && (forall e :: e in s ==> key(e) != key(x)) {
      forall e | e in t ensures Less(key(e), key(s[0])) {
        if e != x {
          MemberOfTail(s, e, t, x);
          var k :| 0 < k < |s| && s[k] == e;
        }
      }
      PrependKeepsStrict(s[0], t, key);
    }
    PrependKeepsOrder(s[0], t, key);
  }

  lemma MemberOfTail<T>(s: seq<T>, e: T, t: seq<T>, x: T)
    requires s != [] && multiset(t) == multiset(s[1..]) + multiset{x}
    requires e in t && e != x
    ensures exists k :: 0 < k < |s| && s[k] == e
  {
    assert e in multiset(t);
    assert e in multiset(s[1..]);
    var k :| 0 <= k < |s[1..]| && s[1..][k] == e;
    assert s[k + 1] == e;
  }

  lemma PrependKeepsOrder<T>(y: T, t: seq<T>, key: T -> string)
    requires Descending(t, key) && forall e :: e in t ==> !Less(key(y), key(e))
    ensures Descending([y] + t, key)
  {
    var r := [y] + t;
    forall i, j | 0 <= i < j < |r| ensures !Less(key(r[i]), key(r[j])) {
      if i == 0 {
        assert r[j] in t;
      } else {
        assert r[i] == t[i - 1] && r[j] == t[j - 1];
      }
    }
  }

  lemma PrependKeepsStrict<T>(y: T, t: seq<T>, key: T -> string)
    requires StrictlyDescending(t, key) && forall e :: e in t ==> Less(key(e), key(y))
    ensures StrictlyDescending([y] + t, key)
  {
    var r := [y] + t;
    forall i, j | 0 <= i < j < |r| ensures Less(key(r[j]), key(r[i])) {
      if i == 0 {
        assert r[j] in t;
      } else {
        assert r[i] == t[i - 1] && r[j] == t[j - 1];
      }
    }
  }

  /**
   * `Array.prototype.sort` with the comparator `(a, b) => key(b).localeCompare(key(a))`,
   * as a stable insertion sort: the result is a permutation ordered largest key first,
   * strictly so when the keys are distinct.
   */
  function SortDescending<T>(s: seq<T>, key: T -> string): (r: seq<T>)
    ensures Descending(r, key)
    ensures multiset(r) == multiset(s)
    ensures KeysDistinct(s, key) ==> StrictlyDescending(r, key)
  {
    if s == [] then []
    else
      var t := SortDescending(s[1..], key);
      HeadKeyFresh(s, key, t);
      Insert(s[0], t, key)
  }

  lemma HeadKeyFresh<T>(s: seq<T>, key: T -> string, t: seq<T>)
    requires s != [] && multiset(t) == multiset(s[1..])
    requires KeysDistinct(s[1..], key) ==> StrictlyDescending(t, key)
    ensures multiset(s) == multiset(t) + multiset{s[0]}
    ensures KeysDistinct(s, key) ==>
              StrictlyDescending(t, key) && forall e :: e in t ==> key(e) != key(s[0])
  {
    assert s == [s[0]] + s[1..];
    if KeysDistinct(s, key) {
      assert KeysDistinct(s[1..], key);
      forall e | e in t ensures key(e) != key(s[0]) {
        assert e in multiset(s[1..]);
        var k :| 0 <= k < |s[1..]| && s[1..][k] == e;
        assert s[k + 1] == e;
      }
    }
  }
}

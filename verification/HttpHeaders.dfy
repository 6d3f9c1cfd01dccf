/** std::multimap<std::string, std::string>: pairs in key order, equal keys in the order they were inserted. */
module HttpHeaders {

  type Header = (string, string)

  /** std::string's order: by bytes, a proper prefix first. */
  predicate Less(a: string, b: string) {
    if a == [] then b != []
    else if b == [] then false
    else a[0] < b[0] || (a[0] == b[0] && Less(a[1..], b[1..]))
  }

  /** `a` and `b` agree for i bytes, and then `a` ends or has the smaller byte. */
  predicate LessAt(a: string, b: string, i: nat) {
    i <= |a| && i < |b| && a[..i] == b[..i] && (i == |a| || a[i] < b[i])
  }

  lemma {:induction false} LessIs(a: string, b: string)
    ensures Less(a, b) <==> exists i: nat :: LessAt(a, b, i)
  {
    if a == [] || b == [] {
      assert a == [] && b != [] ==> LessAt(a, b, 0);
    } else {
      LessIs(a[1..], b[1..]);
      if Less(a, b) {
        if a[0] < b[0] {
          assert LessAt(a, b, 0);
        } else {
          var i: nat :| LessAt(a[1..], b[1..], i);
          LessShifted(a, b, i);
        }
      }
      if i: nat :| LessAt(a, b, i) {
        if i > 0 { LessShifted(a, b, i - 1); }
      }
    }
  }

  lemma LessShifted(a: string, b: string, i: nat)
    requires a != [] && b != []
    ensures LessAt(a, b, i + 1) <==> a[0] == b[0] && LessAt(a[1..], b[1..], i)
  {
    if i < |a| && i + 1 < |b| {
      assert a[..i + 1] == [a[0]] + a[1..][..i] && b[..i + 1] == [b[0]] + b[1..][..i];
      assert a[..i + 1][0] == a[0] && b[..i + 1][0] == b[0];
      assert a[1..][..i] == a[..i + 1][1..] && b[1..][..i] == b[..i + 1][1..];
    }
  }

  predicate Sorted(h: seq<Header>) {
    |h| <= 1 || (!Less(h[|h| - 1].0, h[|h| - 2].0) && Sorted(h[..|h| - 1]))
  }

  /** insert: after every pair whose key is not greater. */
  function Insert(h: seq<Header>, k: string, v: string): (r: seq<Header>) {
    if h == [] || Less(k, h[|h| - 1].0) == false then h + [(k, v)]
    else Insert(h[..|h| - 1], k, v) + [h[|h| - 1]]
  }

  predicate Has(h: seq<Header>, k: string) { exists i | 0 <= i < |h| :: h[i].0 == k }

  /** erase(key): every pair with that key. */
  function Erase(h: seq<Header>, k: string): (r: seq<Header>)
    ensures !Has(r, k) && forall x | x in r :: x in h
  {
    if h == [] then [] else
      var last := h[|h| - 1];
      Erase(h[..|h| - 1], k) + (if last.0 == k then [] else [last])
  }

  function Only(h: seq<Header>, k: string): (r: seq<Header>)
    ensures forall x | x in r :: x.0 == k
  {
    if h == [] then [] else
      var last := h[|h| - 1];
      Only(h[..|h| - 1], k) + (if last.0 == k then [last] else [])
  }

  lemma {:induction false} OnlyJoins(a: seq<Header>, b: seq<Header>, k: string)
    ensures Only(a + b, k) == Only(a, k) + Only(b, k)
  {
    if b == [] {
      assert a + b == a;
    } else {
      assert (a + b)[..|a + b| - 1] == a + b[..|b| - 1];
      OnlyJoins(a, b[..|b| - 1], k);
    }
  }

  lemma OnlyOne(x: Header, k: string)
    ensures Only([x], k) == if x.0 == k then [x] else []
  {
    assert [x][..0] == [];
  }

  /** insert puts a pair behind those with an equal key, and moves no others. */
  lemma {:induction false} InsertGoesLast(h: seq<Header>, k: string, v: string, x: string)
    ensures Only(Insert(h, k, v), x) == Only(h, x) + (if x == k then [(k, v)] else [])
  {
    hide Less, Only;
    OnlyOne((k, v), x);
    if h == [] || !Less(k, h[|h| - 1].0) {
      OnlyJoins(h, [(k, v)], x);
    } else {
      var init, last := h[..|h| - 1], h[|h| - 1];
      LessIrreflexive(k);
      InsertGoesLast(init, k, v, x);
      assert h == init + [last];
      OnlyJoins(init, [last], x);
      OnlyJoins(Insert(init, k, v), [last], x);
      OnlyOne(last, x);
      hide Insert;
    }
  }

  lemma {:induction false} EraseLeaves(h: seq<Header>, k: string, x: string)
    ensures Only(Erase(h, k), x) == if x == k then [] else Only(h, x)
  {
    if h != [] {
      var init, last := h[..|h| - 1], h[|h| - 1];
      EraseLeaves(init, k, x);
      OnlyJoins(Erase(init, k), if last.0 == k then [] else [last], x);
      OnlyOne(last, x);
    }
  }

  lemma {:induction false} OnlyHas(h: seq<Header>, k: string)
    ensures Has(h, k) <==> Only(h, k) != []
  {
    if h != [] {
      var init, last := h[..|h| - 1], h[|h| - 1];
      OnlyHas(init, k);
      assert h == init + [last] && h[|h| - 1] == last;
      if Has(init, k) {
        var i :| 0 <= i < |init| && init[i].0 == k;
        assert h[i].0 == k;
      }
      if Has(h, k) && last.0 != k {
        var i :| 0 <= i < |h| && h[i].0 == k;
        assert init[i].0 == k;
      }
    }
  }

  lemma {:induction false} LessIrreflexive(a: string)
    ensures !Less(a, a)
  {
    if a != [] { LessIrreflexive(a[1..]); }
  }

  lemma {:induction false} LessTransitive(a: string, b: string, c: string)
    requires !Less(b, a) && !Less(c, b)
    ensures !Less(c, a)
  {
    if a != [] && b != [] && c != [] && a[0] == b[0] == c[0] { LessTransitive(a[1..], b[1..], c[1..]); }
  }

  lemma {:induction false} LessAsymmetric(a: string, b: string)
    requires Less(a, b)
    ensures !Less(b, a)
  {
    if a != [] && b != [] && a[0] == b[0] { LessAsymmetric(a[1..], b[1..]); }
  }

  lemma {:induction false} InsertAddsOne(h: seq<Header>, k: string, v: string)
    ensures multiset(Insert(h, k, v)) == multiset(h) + multiset{(k, v)}
  {
    if h != [] && Less(k, h[|h| - 1].0) {
      InsertAddsOne(h[..|h| - 1], k, v);
      assert h == h[..|h| - 1] + [h[|h| - 1]];
    }
  }

  lemma {:induction false} InsertKeepsOrder(h: seq<Header>, k: string, v: string)
    requires Sorted(h)
    ensures var r := Insert(h, k, v);
      Sorted(r) && r != [] && (r[|r| - 1] == (k, v) || (h != [] && r[|r| - 1] == h[|h| - 1]))
  {
    if h != [] && Less(k, h[|h| - 1].0) {
      var s := Insert(h[..|h| - 1], k, v);
      InsertKeepsOrder(h[..|h| - 1], k, v);
      LessAsymmetric(k, h[|h| - 1].0);
      assert (s + [h[|h| - 1]])[..|s|] == s;
    } else {
      assert (h + [(k, v)])[..|h|] == h;
    }
  }

  lemma {:induction false} LastIsGreatest(h: seq<Header>, x: Header)
    requires Sorted(h) && x in h
    ensures !Less(h[|h| - 1].0, x.0)
  {
    var last := h[|h| - 1];
    if x == last {
      LessIrreflexive(x.0);
    } else {
      var init := h[..|h| - 1];
      assert h == init + [last];
      LastIsGreatest(init, x);
      LessTransitive(x.0, init[|init| - 1].0, last.0);
    }
  }

  /** erase takes away the pairs with the key and no others. */
  lemma {:induction false} EraseKeepsOthers(h: seq<Header>, k: string)
    ensures multiset(h) == multiset(Erase(h, k)) + multiset(Only(h, k))
  {
    if h != [] {
      var init, last := h[..|h| - 1], h[|h| - 1];
      EraseKeepsOthers(init, k);
      assert h == init + [last];
      if last.0 == k {
        assert Only(h, k) == Only(init, k) + [last] && Erase(h, k) == Erase(init, k);
      } else {
        assert Erase(h, k) == Erase(init, k) + [last] && Only(h, k) == Only(init, k);
      }
      hide Erase, Only;
    }
  }

  lemma {:induction false} EraseKeepsOrder(h: seq<Header>, k: string)
    requires Sorted(h)
    ensures Sorted(Erase(h, k))
  {
    hide Less;
    if h != [] {
      var e, last := Erase(h[..|h| - 1], k), h[|h| - 1];
      if |h| > 1 { EraseKeepsOrder(h[..|h| - 1], k); }
      assert last.0 == k ==> Erase(h, k) == e;
      if e != [] && last.0 != k {
        assert e[|e| - 1] in e && e[|e| - 1] in h[..|h| - 1];
        assert h == h[..|h| - 1] + [last];
        LastIsGreatest(h, e[|e| - 1]);
        assert (e + [last])[..|e|] == e;
      }
    }
  }
}

/**
 * The pieces of SQL the routers' queries are made of, over a table held as
 * a sequence of rows: a WHERE filter, OFFSET/LIMIT paging, the page-size
 * checks of the query parameters and (I)LIKE pattern matching.
 */
module Sql {
  import opened Wrappers
  import opened Text

  // ---------------------------------------------------------------- .first()

  /** `query.filter(key == id).first()`: the position of the first row whose key is id, or None when no row has it. */
  function FirstWithKey<T>(rows: seq<T>, key: T -> int, id: int): (r: Option<nat>)
    ensures r.Some? ==> r.value < |rows| && key(rows[r.value]) == id
    ensures r.Some? ==> forall k :: 0 <= k < r.value ==> key(rows[k]) != id
    ensures r.None? ==> forall k :: 0 <= k < |rows| ==> key(rows[k]) != id
  {
    if rows == [] then None
    else if key(rows[0]) == id then Some(0)
    else match FirstWithKey(rows[1..], key, id)
      case None => None
      case Some(k) => Some(k + 1)
  }

  /** The first row with the key is the one found. */
  lemma {:induction false} FirstWithKeyAt<T>(rows: seq<T>, key: T -> int, id: int, k: nat)
    requires k < |rows| && key(rows[k]) == id
    requires forall j :: 0 <= j < k ==> key(rows[j]) != id
    ensures FirstWithKey(rows, key, id) == Some(k)
  {
    if k > 0 {
      FirstWithKeyAt(rows[1..], key, id, k - 1);
    }
  }

  // ---------------------------------------------------------------- WHERE

  /** The rows satisfying p, in table order. */
  function Select<T>(s: seq<T>, p: T -> bool): (r: seq<T>)
    ensures |r| <= |s|
    ensures forall i :: 0 <= i < |r| ==> r[i] in s && p(r[i])
    ensures forall i :: 0 <= i < |s| && p(s[i]) ==> s[i] in r
  {
    if s == [] then []
    else if p(s[0]) then [s[0]] + Select(s[1..], p)
    else Select(s[1..], p)
  }

  /** A condition every row meets removes nothing. */
  lemma {:induction false} SelectAll<T>(s: seq<T>, p: T -> bool)
    requires forall i :: 0 <= i < |s| ==> p(s[i])
    ensures Select(s, p) == s
  {
    if s != [] {
      SelectAll(s[1..], p);
      assert s == [s[0]] + s[1..];
    }
  }

  /** Each row is kept as often as it occurs in the table when it meets the condition, and never otherwise. */
  lemma {:induction false} SelectCounts<T>(s: seq<T>, p: T -> bool, x: T)
    ensures multiset(Select(s, p))[x] == if p(x) then multiset(s)[x] else 0
  {
    if s != [] {
      SelectCounts(s[1..], p, x);
      assert s == [s[0]] + s[1..];
      assert multiset(s) == multiset{s[0]} + multiset(s[1..]);
    }
  }

  // ---------------------------------------------------------------- OFFSET / LIMIT

  function Min(a: int, b: int): int { if a <= b then a else b }

  /** `OFFSET offset LIMIT limit`: skip offset rows, then keep at most limit of the rest. */
  function Window<T>(s: seq<T>, offset: nat, limit: nat): (r: seq<T>)
    ensures |r| == if offset >= |s| then 0 else Min(limit, |s| - offset)
    ensures forall i :: 0 <= i < |r| ==> r[i] == s[offset + i]
  {
    if offset >= |s| then [] else s[offset..][..Min(limit, |s| - offset)]
  }

  /** Consecutive pages tile the result: no row is skipped or repeated between them. */
  lemma {:induction false} WindowsTile<T>(s: seq<T>, offset: nat, a: nat, b: nat)
    ensures Window(s, offset, a) + Window(s, offset + a, b) == Window(s, offset, a + b)
  {
    var w := Window(s, offset, a) + Window(s, offset + a, b);
    var v := Window(s, offset, a + b);
    assert |w| == |v|;
    forall i | 0 <= i < |w| ensures w[i] == v[i] {
      if i >= |Window(s, offset, a)| {
        assert w[i] == Window(s, offset + a, b)[i - |Window(s, offset, a)|];
      }
    }
  }

  /** A page from the start that is large enough is the whole result. */
  lemma {:induction false} WindowWhole<T>(s: seq<T>, limit: nat)
    requires |s| <= limit
    ensures Window(s, 0, limit) == s
  {
  }

  /** The query parameters `limit: Query(50, ge=1, le=500)` and `offset: Query(0, ge=0)`. */
  const DefaultLimit := 50
  const MaxLimit := 500

  /** The values the parameter validation lets through; anything else is answered with 422. */
  predicate ValidPage(limit: int, offset: int) {
    1 <= limit <= MaxLimit && 0 <= offset
  }

  // ---------------------------------------------------------------- LIKE

  predicate NoWildcards(p: string) {
    forall k :: 0 <= k < |p| ==> p[k] != '%' && p[k] != '_'
  }

  /** SQL LIKE without an escape character: `%` matches any run of characters, `_` exactly one. */
  predicate LikeMatch(s: string, p: string)
    decreases |s| + |p|
  {
    if p == [] then s == []
    else if p[0] == '%' then LikeMatch(s, p[1..]) || (s != [] && LikeMatch(s[1..], p))
    else if p[0] == '_' then s != [] && LikeMatch(s[1..], p[1..])
    else s != [] && s[0] == p[0] && LikeMatch(s[1..], p[1..])
  }

  /** ILIKE: LIKE after both sides are brought to one letter case. */
  predicate ILike(s: string, p: string) {
    LikeMatch(Lower(s), Lower(p))
  }

  /** A lone `%` matches everything. */
  lemma {:induction false} LikeAnything(s: string)
    ensures LikeMatch(s, "%")
  {
    if s != [] {
      LikeAnything(s[1..]);
    }
  }

  /** A literal followed by `%` matches exactly the texts that start with the literal. */
  lemma {:induction false} LikePrefix(s: string, q: string)
    requires NoWildcards(q)
    ensures LikeMatch(s, q + "%") <==> StartsWith(s, q)
  {
    if q == [] {
      assert q + "%" == "%";
      LikeAnything(s);
    } else {
      var p := q + "%";
      assert p[0] == q[0] && p[1..] == q[1..] + "%";
      if s != [] {
        LikePrefix(s[1..], q[1..]);
        assert StartsWith(s, q) <==> s[0] == q[0] && StartsWith(s[1..], q[1..]) by {
          if s[0] == q[0] && StartsWith(s[1..], q[1..]) {
            assert s[..|q|] == [s[0]] + s[1..][..|q| - 1];
          }
          if StartsWith(s, q) {
            assert s[1..][..|q| - 1] == s[..|q|][1..];
          }
        }
      }
    }
  }

  /** A leading `%` matches when the rest of the pattern matches some suffix. */
  lemma {:induction false} LikeSuffix(s: string, r: string)
    ensures LikeMatch(s, "%" + r) <==> exists i :: 0 <= i <= |s| && LikeMatch(s[i..], r)
  {
    var p := "%" + r;
    assert p[0] == '%' && p[1..] == r;
    assert s[0..] == s;
    if s != [] {
      LikeSuffix(s[1..], r);
      if exists i :: 0 <= i <= |s| && LikeMatch(s[i..], r) {
        var i :| 0 <= i <= |s| && LikeMatch(s[i..], r);
        if i > 0 {
          assert s[1..][i - 1..] == s[i..];
        }
      }
      if LikeMatch(s[1..], p) {
        var i :| 0 <= i <= |s[1..]| && LikeMatch(s[1..][i..], r);
        assert s[1..][i..] == s[i + 1..];
      }
    }
  }

  lemma {:induction false} LowerAppend(a: string, b: string)
    ensures Lower(a + b) == Lower(a) + Lower(b)
  {
    var l := Lower(a + b);
    forall k | 0 <= k < |l| ensures l[k] == (Lower(a) + Lower(b))[k] {
      if k >= |a| {
        assert (a + b)[k] == b[k - |a|];
      }
    }
  }

  /** Lowering the pattern `%f%` lowers f and leaves the wildcards. */
  lemma {:induction false} LowerPattern(f: string)
    requires NoWildcards(f)
    ensures Lower("%" + f + "%") == "%" + (Lower(f) + "%")
    ensures NoWildcards(Lower(f))
  {
    LowerAppend("%" + f, "%");
    LowerAppend("%", f);
    assert Lower("%") == "%";
  }

  /** A literal between two `%` matches a text exactly when it occurs in it. */
  lemma {:induction false} LikeContains(s: string, q: string)
    requires NoWildcards(q)
    ensures LikeMatch(s, "%" + (q + "%")) <==> exists i :: OccursAt(s, q, i)
  {
    LikeSuffix(s, q + "%");
    forall i | 0 <= i <= |s| ensures LikeMatch(s[i..], q + "%") <==> OccursAt(s, q, i) {
      LikeAt(s, q, i);
    }
    if exists i :: OccursAt(s, q, i) {
      var i :| OccursAt(s, q, i);
      assert 0 <= i <= |s|;
    }
  }

  lemma {:induction false} LikeAt(s: string, q: string, i: nat)
    requires NoWildcards(q) && i <= |s|
    ensures LikeMatch(s[i..], q + "%") <==> OccursAt(s, q, i)
  {
    LikePrefix(s[i..], q);
    if |q| <= |s| - i {
      assert s[i..][..|q|] == s[i..i + |q|];
    }
  }

  /**
   * `col ILIKE '%f%'` with a filter free of wildcards holds exactly when the
   * filter occurs in the column, ignoring letter case.
   */
  lemma {:induction false} ContainsPattern(s: string, f: string)
    requires NoWildcards(f)
    ensures ILike(s, "%" + f + "%") <==> exists i :: OccursAt(Lower(s), Lower(f), i)
  {
    LowerPattern(f);
    var p := "%" + f + "%";
    assert ILike(s, p) == LikeMatch(Lower(s), "%" + (Lower(f) + "%"));
    LikeContains(Lower(s), Lower(f));
  }
}

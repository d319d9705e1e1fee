/**
 * The symbol-interning table the front end consumes. Strings are
 * interned into an append-only list and a string's identifier is its
 * index in that list, so identifiers are stable and dense.
 */
module Names {
  import opened Util

  type Table = seq<string>

  /** No string is interned twice. */
  ghost predicate Distinct(t: Table)
  {
    forall i, j :: 0 <= i < j < |t| ==> t[i] != t[j]
  }

  /** The identifier of `w` if it is already interned (`Names.query`). */
  function Query(t: Table, w: string): (r: Option<nat>)
    ensures r.Some? ==> r.value < |t| && t[r.value] == w
    ensures r.Some? ==> forall k :: 0 <= k < r.value ==> t[k] != w
    ensures r.None? <==> w !in t
  {
    if |t| == 0 then None
    else if t[0] == w then Some(0)
    else match Query(t[1..], w)
      case None => None
      case Some(k) => Some(k + 1)
  }

  /**
   * Interns one string (`Names.lookup` on a one-element list): an
   * interned string keeps its identifier, a new one is appended.
   */
  function Lookup(t: Table, w: string): (r: (nat, Table))
    ensures r.0 < |r.1| && r.1[r.0] == w
    ensures t <= r.1 && |r.1| <= |t| + 1
    ensures w in t ==> r.1 == t
    ensures w !in t ==> r.1 == t + [w] && r.0 == |t|
    ensures Distinct(t) ==> Distinct(r.1)
  {
    match Query(t, w)
    case Some(i) => (i, t)
    case None => (|t|, t + [w])
  }

  /** The string behind an identifier (`Names.get_name_string`). */
  function NameString(t: Table, id: nat): string
    requires id < |t|
  {
    t[id]
  }

  /** Interns a list of strings in order (`Names.lookup`). */
  function LookupAll(t: Table, ws: seq<string>): (r: (seq<nat>, Table))
    ensures |r.0| == |ws|
    ensures t <= r.1
    ensures forall k :: 0 <= k < |ws| ==> r.0[k] < |r.1| && r.1[r.0[k]] == ws[k]
    ensures Distinct(t) ==> Distinct(r.1)
    decreases |ws|
  {
    if |ws| == 0 then ([], t)
    else
      var (id, t1) := Lookup(t, ws[0]);
      var (ids, t2) := LookupAll(t1, ws[1..]);
      ([id] + ids, t2)
  }

  /** Interning an already-interned string changes nothing and returns its identifier. */
  lemma LookupIdempotent(t: Table, w: string)
    requires Distinct(t)
    ensures var r := Lookup(t, w); Lookup(r.1, w) == r
  {
    var r := Lookup(t, w);
    var again := Lookup(r.1, w);
    assert w in r.1;
    assert r.1[again.0] == w && r.1[r.0] == w;
  }

  /** Query finds exactly the identifier Lookup hands out. */
  lemma QueryAfterLookup(t: Table, w: string)
    requires Distinct(t)
    ensures var r := Lookup(t, w); Query(r.1, w) == Some(r.0)
  {
    var r := Lookup(t, w);
    assert r.1[r.0] == w;
  }

  function Range(lo: nat, n: nat): (r: seq<nat>)
    ensures |r| == n && forall k :: 0 <= k < n ==> r[k] == lo + k
    decreases n
  {
    if n == 0 then [] else [lo] + Range(lo + 1, n - 1)
  }

  lemma AppendHead<T>(a: seq<T>, b: seq<T>)
    requires |b| > 0
    ensures (a + [b[0]]) + b[1..] == a + b
  {
    assert b == [b[0]] + b[1..];
  }

  lemma DistinctTail(ws: seq<string>)
    requires |ws| > 0 && Distinct(ws)
    ensures Distinct(ws[1..])
  {
    var rest := ws[1..];
    forall i, j | 0 <= i < j < |rest| ensures rest[i] != rest[j] {
      assert rest[i] == ws[i + 1] && rest[j] == ws[j + 1];
    }
  }

  /** After interning the first of some distinct fresh strings, the others are still distinct and fresh. */
  lemma FreshTail(t: Table, ws: seq<string>)
    requires |ws| > 0 && Distinct(ws)
    requires forall k :: 0 <= k < |ws| ==> ws[k] !in t
    ensures ws[0] !in t && Distinct(ws[1..])
    ensures forall k :: 0 <= k < |ws| - 1 ==> ws[1..][k] !in t + [ws[0]]
  {
    DistinctTail(ws);
    forall k | 0 <= k < |ws| - 1 ensures ws[1..][k] !in t + [ws[0]] {
      assert ws[1..][k] == ws[k + 1];
      assert ws[k + 1] != ws[0];
      assert ws[k + 1] !in t;
    }
  }

  /** One step of LookupAll: intern the first string, then the rest into the grown table. */
  lemma LookupAllCons(t: Table, ws: seq<string>)
    requires |ws| > 0
    ensures var first := Lookup(t, ws[0]); var rest := LookupAll(first.1, ws[1..]);
      LookupAll(t, ws) == ([first.0] + rest.0, rest.1)
  {
  }

  /** The inductive step of LookupAllFresh, stated without the freshness hypotheses. */
  lemma FreshStep(t: Table, ws: seq<string>)
    requires |ws| > 0
    requires Lookup(t, ws[0]) == (|t|, t + [ws[0]])
    requires LookupAll(t + [ws[0]], ws[1..]) == (Range(|t| + 1, |ws| - 1), (t + [ws[0]]) + ws[1..])
    ensures LookupAll(t, ws) == (Range(|t|, |ws|), t + ws)
  {
    LookupAllCons(t, ws);
    AppendHead(t, ws);
  }

  /**
   * Interning distinct fresh strings hands out consecutive identifiers
   * starting at the table's length and appends the strings in order.
   */
  lemma {:induction false} LookupAllFresh(t: Table, ws: seq<string>)
    requires Distinct(ws)
    requires forall k :: 0 <= k < |ws| ==> ws[k] !in t
    ensures LookupAll(t, ws) == (Range(|t|, |ws|), t + ws)
    decreases |ws|
  {
    if |ws| == 0 {
      assert t + ws == t;
    } else {
      FreshTail(t, ws);
      LookupAllFresh(t + [ws[0]], ws[1..]);
      FreshStep(t, ws);
    }
  }
}

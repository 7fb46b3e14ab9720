/** Operations on a table of records identified by a numeric key, as the
    store in src/lib/data.ts performs them: find by key, replace by key,
    remove by key, and the `max(ids) + 1` id generator. */
module Tables {
  import opened Seqs

  /** The keys of a table, in table order. */
  function Keys<T>(s: seq<T>, key: T -> nat): (ks: seq<nat>)
    ensures |ks| == |s|
    ensures forall x :: x in s ==> key(x) in ks
  {
    if s == [] then [] else [key(s[0])] + Keys(s[1..], key)
  }

  /** The test `e => key(e) === k`, as one value that every use shares. */
  function HasKey<T>(key: T -> nat, k: nat): T -> bool
  {
    e => key(e) == k
  }

  /** The test `e => key(e) !== k`. */
  function LacksKey<T>(key: T -> nat, k: nat): T -> bool
  {
    e => key(e) != k
  }

  /** `s.find(e => key(e) === k)`: the entry at the first position holding
      the key, when there is one. */
  function FindByKey<T(==,!new)>(s: seq<T>, key: T -> nat, k: nat): (r: Option<T>)
    ensures r.None? <==> forall x :: x in s ==> key(x) != k
    ensures r.Some? ==> r.value in s && key(r.value) == k
    ensures r.Some? ==> exists i :: 0 <= i < |s| && s[i] == r.value && forall j :: 0 <= j < i ==> key(s[j]) != k
  {
    var r := Find(HasKey(key, k), s);
    if r.Some? then
      var i :| 0 <= i < |s| && s[i] == r.value && NoneBefore(HasKey(key, k), s, i);
      assert forall j :: 0 <= j < i ==> !HasKey(key, k)(s[j]);
      r
    else r
  }

  /** When entries share a key, the one at the first such position is found. */
  lemma FindByKeyFirst<T(!new)>(s: seq<T>, key: T -> nat, k: nat, i: nat)
    requires i < |s| && key(s[i]) == k
    requires forall j :: 0 <= j < i ==> key(s[j]) != k
    ensures FindByKey(s, key, k) == Some(s[i])
  {
    assert NoneBefore(HasKey(key, k), s, i);
    FindIsFirst(HasKey(key, k), s, i);
  }

  /** `s.map(e => key(e) === key(x) ? x : e)`. */
  function ReplaceByKey<T>(s: seq<T>, key: T -> nat, x: T): (r: seq<T>)
    ensures |r| == |s|
    ensures forall i :: 0 <= i < |s| && key(s[i]) == key(x) ==> r[i] == x
    ensures forall i :: 0 <= i < |s| && key(s[i]) != key(x) ==> r[i] == s[i]
  {
    if s == [] then []
    else [if key(s[0]) == key(x) then x else s[0]] + ReplaceByKey(s[1..], key, x)
  }

  /** `s.filter(e => key(e) !== k)`. */
  function RemoveByKey<T(==,!new)>(s: seq<T>, key: T -> nat, k: nat): (r: seq<T>)
    ensures forall x :: x in r <==> x in s && key(x) != k
    ensures SubsequenceOf(r, s)
    ensures forall x :: multiset(r)[x] == if key(x) != k then multiset(s)[x] else 0
  {
    Filter(LacksKey(key, k), s)
  }

  /** Replacing by a key that no entry has leaves the table identical. */
  lemma ReplaceAbsentKey<T>(s: seq<T>, key: T -> nat, x: T)
    requires forall e :: e in s ==> key(e) != key(x)
    ensures ReplaceByKey(s, key, x) == s
  {
    var r := ReplaceByKey(s, key, x);
    forall i | 0 <= i < |s| ensures r[i] == s[i] {
      assert s[i] in s;
    }
  }

  /** Replacing twice by the same entry is the same as replacing once. */
  lemma ReplaceIdempotent<T>(s: seq<T>, key: T -> nat, x: T)
    ensures ReplaceByKey(ReplaceByKey(s, key, x), key, x) == ReplaceByKey(s, key, x)
  {
  }

  /** Removing by a key that no entry has leaves the table identical. */
  lemma {:induction false} RemoveAbsentKey<T(!new)>(s: seq<T>, key: T -> nat, k: nat)
    requires forall e :: e in s ==> key(e) != k
    ensures RemoveByKey(s, key, k) == s
  {
    FilterKeepsAll(LacksKey(key, k), s);
  }

  /** Removing by a key a second time changes nothing. */
  lemma {:induction false} RemoveIdempotent<T(!new)>(s: seq<T>, key: T -> nat, k: nat)
    ensures RemoveByKey(RemoveByKey(s, key, k), key, k) == RemoveByKey(s, key, k)
  {
    RemoveAbsentKey(RemoveByKey(s, key, k), key, k);
  }

  /** Removing by key distributes over concatenation: entries that stay keep
      their relative order. */
  lemma {:induction false} RemoveAppend<T(!new)>(s: seq<T>, t: seq<T>, key: T -> nat, k: nat)
    ensures RemoveByKey(s + t, key, k) == RemoveByKey(s, key, k) + RemoveByKey(t, key, k)
  {
    FilterAppend(LacksKey(key, k), s, t);
  }

  /** `Math.max(...xs)` of a non-empty list of ids. */
  function Max(xs: seq<nat>): (m: nat)
    requires |xs| > 0
    ensures m in xs
    ensures forall x :: x in xs ==> x <= m
  {
    if |xs| == 1 then xs[0]
    else
      var m := Max(xs[1..]);
      assert xs == [xs[0]] + xs[1..];
      if xs[0] >= m then xs[0] else m
  }

  /** The id a new entry gets: one more than the largest id in the table,
      and 1 in an empty table (see `NextIdAsWritten` for what the source
      computes there). */
  function NextId(ids: seq<nat>): (id: nat)
    ensures id >= 1
    ensures forall x :: x in ids ==> x < id
    ensures id !in ids
  {
    if ids == [] then 1 else Max(ids) + 1
  }

  /** The numbers the source's id arithmetic can produce: a finite value,
      `-Infinity` (what `Math.max` returns for no arguments), or `NaN`
      (what `parseInt` returns for the text "-Infinity" or "NaN"). */
  datatype JsNumber = Finite(n: int) | NegativeInfinity | NaN

  /** `parseInt(String(x))`: finite ids read back as themselves (see
      `Text.ParseDigitsNatToString`), the other two as `NaN`. */
  function ParseIdText(x: JsNumber): (r: JsNumber)
    ensures x.Finite? ==> r == x
    ensures !x.Finite? ==> r == NaN
  {
    if x.Finite? then x else NaN
  }

  /** `Math.max(...xs)`: `NaN` if any argument is `NaN`, `-Infinity` for none. */
  function JsMax(xs: seq<JsNumber>): (r: JsNumber)
    ensures r == NaN <==> NaN in xs
    ensures r == NegativeInfinity <==> forall x :: x in xs ==> x == NegativeInfinity
    ensures r.Finite? ==> r in xs && forall x :: x in xs && x.Finite? ==> x.n <= r.n
  {
    if xs == [] then NegativeInfinity
    else
      var m := JsMax(xs[1..]);
      assert xs[0] in xs && forall x :: x in xs <==> x == xs[0] || x in xs[1..];
      if xs[0] == NaN || m == NaN then NaN
      else if xs[0] == NegativeInfinity then m
      else if m == NegativeInfinity then xs[0]
      else if xs[0].n >= m.n then xs[0] else m
  }

  /** `x + 1` on a JavaScript number. */
  function JsAddOne(x: JsNumber): (r: JsNumber)
    ensures r.Finite? <==> x.Finite?
    ensures x.Finite? ==> r.n == x.n + 1
    ensures !x.Finite? ==> r == x
  {
    if x.Finite? then Finite(x.n + 1) else x
  }

  /** The source's id generator, as written:
      `Math.max(...table.map(e => parseInt(e.id))) + 1`. */
  function NextIdAsWritten(ids: seq<JsNumber>): (r: JsNumber)
    ensures ids == [] ==> r == NegativeInfinity
    ensures (exists i :: 0 <= i < |ids| && !ids[i].Finite?) ==> r == NaN
    ensures ids != [] && (forall i :: 0 <= i < |ids| ==> ids[i].Finite?) ==>
              r.Finite? && forall i :: 0 <= i < |ids| ==> ids[i].n < r.n
  {
    var parsed := seq(|ids|, i requires 0 <= i < |ids| => ParseIdText(ids[i]));
    assert forall i :: 0 <= i < |ids| ==> parsed[i] in parsed && parsed[i] == ParseIdText(ids[i]);
    JsAddOne(JsMax(parsed))
  }

  function AsJsNumbers(ids: seq<nat>): seq<JsNumber>
  {
    seq(|ids|, i requires 0 <= i < |ids| => Finite(ids[i]))
  }

  /** On a non-empty table of numeric ids the source's generator and
      `NextId` agree. */
  lemma {:induction false} NextIdAgreesWhenNonEmpty(ids: seq<nat>)
    requires ids != []
    ensures NextIdAsWritten(AsJsNumbers(ids)) == Finite(NextId(ids))
  {
    JsMaxOfFinite(ids);
  }

  lemma {:induction false} JsMaxOfFinite(ids: seq<nat>)
    requires ids != []
    ensures JsMax(seq(|ids|, i requires 0 <= i < |ids| => ParseIdText(AsJsNumbers(ids)[i]))) == Finite(Max(ids))
  {
    var js := seq(|ids|, i requires 0 <= i < |ids| => ParseIdText(AsJsNumbers(ids)[i]));
    if |ids| > 1 {
      JsMaxOfFinite(ids[1..]);
      assert js[1..] == seq(|ids[1..]|, i requires 0 <= i < |ids[1..]| => ParseIdText(AsJsNumbers(ids[1..])[i]));
    }
  }

  /** Counterexample: once a table is empty, the source hands out the ids
      "-Infinity", then "NaN", then "NaN" again, so the second and third
      new entries share an id. */
  lemma EmptyTableGivesDuplicateIds()
    ensures NextIdAsWritten([]) == NegativeInfinity
    ensures NextIdAsWritten([NegativeInfinity]) == NaN
    ensures NextIdAsWritten([NegativeInfinity, NaN]) == NaN
  {
  }

  /** With the corrected generator, three additions to an empty table get
      three distinct ids. */
  lemma {:induction false} EmptyTableGivesDistinctIds()
    ensures NextId([]) == 1 && NextId([1]) == 2 && NextId([1, 2]) == 3
  {
    assert Max([1]) == 1;
    assert [1, 2][1..] == [2];
  }
}

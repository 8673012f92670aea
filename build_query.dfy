/**
 * The query builder both list routes share: find the stored records the
 * `where` document matches, order them by the `sort` document, skip, and
 * cut to the effective limit — or, in count mode, count the matches.
 *
 * The store's own filter and sort semantics are parameters: `matches(w, r)`
 * says whether record `r` satisfies filter document `w`, and `le(d, a, b)`
 * whether `a` may come before `b` under sort document `d`. Stored records
 * are a sequence in the store's natural order.
 */
module BuildQuery {
  import opened Wrappers
  import opened ParseJsonQuery

  /** What the query resolves to: the records, their number, or a store error. */
  datatype Outcome<R> = Listed(records: seq<R>) | Counted(count: nat) | Rejected

  /** Whether `r` passes the filter; no filter document matches everything. */
  predicate Selects<D, R>(where: Option<D>, matches: (D, R) -> bool, r: R) {
    where.None? || matches(where.value, r)
  }

  /** `Model.find(where || {})`: the matching records, in stored order. */
  function Find<D, R(==,!new)>(stored: seq<R>, where: Option<D>, matches: (D, R) -> bool): (found: seq<R>)
    ensures |found| <= |stored|
    ensures forall r :: r in found <==> r in stored && Selects(where, matches, r)
  {
    if stored == [] then []
    else
      var tail := Find(stored[1..], where, matches);
      if Selects(where, matches, stored[0]) then [stored[0]] + tail else tail
  }

  /** Finding keeps every matching record as often as it is stored, and no other. */
  lemma {:induction false} FindMultiplicity<D, R(!new)>(stored: seq<R>, where: Option<D>, matches: (D, R) -> bool, r: R)
    ensures multiset(Find(stored, where, matches))[r]
            == if Selects(where, matches, r) then multiset(stored)[r] else 0
  {
    if stored != [] {
      FindMultiplicity(stored[1..], where, matches, r);
      assert stored == [stored[0]] + stored[1..];
    }
  }

  /** With no filter document every stored record is found, in stored order. */
  lemma {:induction false} FindAll<D, R(!new)>(stored: seq<R>, matches: (D, R) -> bool)
    ensures Find(stored, None, matches) == stored
  {
    if stored != [] {
      FindAll(stored[1..], matches);
      assert stored == [stored[0]] + stored[1..];
    }
  }

  // Ordering

  /** `s` is ordered under document `d`. */
  ghost predicate Sorted<D, R>(s: seq<R>, d: D, le: (D, R, R) -> bool) {
    forall i, j :: 0 <= i < j < |s| ==> le(d, s[i], s[j])
  }

  /** `le(d, ·, ·)` is a total preorder, as a store's sort order is. */
  ghost predicate TotalPreorder<D, R(!new)>(d: D, le: (D, R, R) -> bool) {
    && (forall a, b :: le(d, a, b) || le(d, b, a))
    && (forall a, b, c :: le(d, a, b) && le(d, b, c) ==> le(d, a, c))
  }

  /** `x` placed before the first element it must precede. */
  function Insert<D, R>(x: R, s: seq<R>, d: D, le: (D, R, R) -> bool): (r: seq<R>)
    ensures multiset(r) == multiset(s) + multiset{x}
    ensures |r| == |s| + 1
  {
    if s == [] then [x]
    else if !le(d, s[0], x) then [x] + s
    else
      assert s == [s[0]] + s[1..];
      [s[0]] + Insert(x, s[1..], d, le)
  }

  /** `query.sort(d)`: the records rearranged into the order of `d`. */
  function SortBy<D, R>(s: seq<R>, d: D, le: (D, R, R) -> bool): (r: seq<R>)
    ensures multiset(r) == multiset(s)
    ensures |r| == |s|
  {
    if s == [] then []
    else
      assert s == s[..|s| - 1] + [s[|s| - 1]];
      Insert(s[|s| - 1], SortBy(s[..|s| - 1], d, le), d, le)
  }

  /** Inserting into an ordered sequence keeps it ordered. */
  lemma {:induction false} InsertSorted<D, R(!new)>(x: R, s: seq<R>, d: D, le: (D, R, R) -> bool)
    requires TotalPreorder(d, le)
    requires Sorted(s, d, le)
    ensures Sorted(Insert(x, s, d, le), d, le)
  {
    if s != [] && le(d, s[0], x) {
      InsertSorted(x, s[1..], d, le);
      var tail := Insert(x, s[1..], d, le);
      forall k | 0 <= k < |tail|
        ensures le(d, s[0], tail[k])
      {
        assert tail[k] in multiset(tail);
        assert tail[k] == x || tail[k] in multiset(s[1..]);
        if tail[k] != x {
          var m :| 0 <= m < |s[1..]| && s[1..][m] == tail[k];
          assert s[1 + m] == tail[k];
        }
      }
    } else if s != [] {
      forall k | 0 <= k < |s|
        ensures le(d, x, s[k])
      {
        assert k == 0 || le(d, s[0], s[k]);
      }
    }
  }

  /** Under a total preorder, sorting orders. */
  lemma {:induction false} SortBySorted<D, R(!new)>(s: seq<R>, d: D, le: (D, R, R) -> bool)
    requires TotalPreorder(d, le)
    ensures Sorted(SortBy(s, d, le), d, le)
  {
    if s != [] {
      SortBySorted(s[..|s| - 1], d, le);
      InsertSorted(s[|s| - 1], SortBy(s[..|s| - 1], d, le), d, le);
    }
  }

  // Skip and limit

  /** `query.skip(n)` for `n >= 0`: the records after the first `n`. */
  function Drop<R>(s: seq<R>, n: nat): (r: seq<R>)
    ensures |r| == if n <= |s| then |s| - n else 0
    ensures forall i :: 0 <= i < |r| ==> r[i] == s[n + i]
  {
    if n <= |s| then s[n..] else []
  }

  /**
   * The limit that applies: the explicit `limit` if the descriptor has one,
   * else the caller's default if it gave one, else none.
   */
  function EffectiveLimit(limit: Option<int>, defaultLimit: Option<nat>): (r: Option<int>)
    ensures limit.Some? ==> r == limit
    ensures limit.None? && defaultLimit.Some? ==> r == Some(defaultLimit.value as int)
    ensures limit.None? && defaultLimit.None? ==> r.None?
  {
    if limit.Some? then limit
    else if defaultLimit.Some? then Some(defaultLimit.value as int)
    else None
  }

  /** The magnitude of a limit: the store reads a negative limit as its absolute value. */
  function Magnitude(n: int): nat {
    if n < 0 then -n else n
  }

  /**
   * `query.limit(n)` as the store applies it: no limit at all, or a limit of
   * zero, leaves the records alone; otherwise at most `|n|` are kept.
   */
  function Window<R>(s: seq<R>, limit: Option<int>): (r: seq<R>)
    ensures |r| <= |s| && r == s[..|r|]
    ensures limit.None? || limit.value == 0 ==> r == s
    ensures limit.Some? && limit.value != 0 ==> |r| == if Magnitude(limit.value) < |s| then Magnitude(limit.value) else |s|
  {
    if limit.None? || limit.value == 0 then s
    else if Magnitude(limit.value) < |s| then s[..Magnitude(limit.value)]
    else s
  }

  /** The records a list query returns before the window: found, then ordered. */
  function Ordered<D, R(==,!new)>(stored: seq<R>, q: Query<D>, matches: (D, R) -> bool, le: (D, R, R) -> bool): (r: seq<R>)
    ensures multiset(r) == multiset(Find(stored, q.where, matches))
  {
    var found := Find(stored, q.where, matches);
    if q.sort.Some? then SortBy(found, q.sort.value, le) else found
  }

  /**
   * `buildQuery(Model, q, defaultLimit)`. In count mode the number of
   * matches; otherwise the ordered matches, skipped and cut to the
   * effective limit. A negative `skip` is refused by the store.
   */
  function Execute<D, R(==,!new)>(stored: seq<R>, q: Query<D>, defaultLimit: Option<nat>,
                                   matches: (D, R) -> bool, le: (D, R, R) -> bool): (o: Outcome<R>)
    ensures o.Counted? <==> q.count == Some(true)
    ensures o.Rejected? <==> q.count != Some(true) && q.skip.Some? && q.skip.value < 0
    ensures o.Counted? ==> o.count <= |stored|
    ensures o.Listed? ==> |o.records| <= |stored|
  {
    var found := Find(stored, q.where, matches);
    if q.count == Some(true) then Counted(|found|)
    else if q.skip.Some? && q.skip.value < 0 then Rejected
    else
      var ordered := Ordered(stored, q, matches, le);
      var skipped := if q.skip.Some? then Drop(ordered, q.skip.value) else ordered;
      Listed(Window(skipped, EffectiveLimit(q.limit, defaultLimit)))
  }

  // Properties

  /** The count is the number of stored records the filter selects. */
  lemma {:induction false} CountIsMatches<D, R(!new)>(stored: seq<R>, q: Query<D>, defaultLimit: Option<nat>,
                                                         matches: (D, R) -> bool, le: (D, R, R) -> bool)
    requires q.count == Some(true)
    ensures Execute(stored, q, defaultLimit, matches, le)
            == Counted(|Find(stored, q.where, matches)|)
  {
  }

  /** The count ignores sort, skip and limit: only the filter matters. */
  lemma CountIgnoresPaging<D, R(!new)>(stored: seq<R>, q: Query<D>, q': Query<D>,
                                          defaultLimit: Option<nat>, defaultLimit': Option<nat>,
                                          matches: (D, R) -> bool, le: (D, R, R) -> bool)
    requires q.count == Some(true) && q'.count == Some(true) && q.where == q'.where
    ensures Execute(stored, q, defaultLimit, matches, le) == Execute(stored, q', defaultLimit', matches, le)
  {
  }

  /** Every listed record is a stored record the filter selects. */
  lemma ListedRecordsMatch<D, R(!new)>(stored: seq<R>, q: Query<D>, defaultLimit: Option<nat>,
                                          matches: (D, R) -> bool, le: (D, R, R) -> bool)
    requires Execute(stored, q, defaultLimit, matches, le).Listed?
    ensures forall r :: r in Execute(stored, q, defaultLimit, matches, le).records ==>
                          r in stored && Selects(q.where, matches, r)
  {
    var found := Find(stored, q.where, matches);
    var ordered := Ordered(stored, q, matches, le);
    var skipped := if q.skip.Some? then Drop(ordered, q.skip.value) else ordered;
    var listed := Execute(stored, q, defaultLimit, matches, le).records;
    forall r | r in listed
      ensures r in found
    {
      var i :| 0 <= i < |listed| && listed[i] == r;
      assert r == skipped[i];
      var j :| 0 <= j < |ordered| && ordered[j] == r;
      assert r in multiset(ordered);
    }
  }

  /** A positive limit bounds the list, whether it came from the query or the caller's default. */
  lemma ListedWithinLimit<D, R(!new)>(stored: seq<R>, q: Query<D>, defaultLimit: Option<nat>,
                                         matches: (D, R) -> bool, le: (D, R, R) -> bool)
    requires Execute(stored, q, defaultLimit, matches, le).Listed?
    ensures q.limit.Some? && q.limit.value > 0
            ==> |Execute(stored, q, defaultLimit, matches, le).records| <= q.limit.value
    ensures q.limit.None? && defaultLimit.Some? && defaultLimit.value > 0
            ==> |Execute(stored, q, defaultLimit, matches, le).records| <= defaultLimit.value
  {
  }

  /**
   * `skip` drops exactly that many of the ordered matches before the limit:
   * record `i` of the list is ordered match `skip + i`, and the list holds
   * what remains after the skip, cut to the magnitude of the limit in force
   * when that limit is not zero.
   */
  lemma SkipOffsets<D, R(!new)>(stored: seq<R>, q: Query<D>, defaultLimit: Option<nat>,
                                   matches: (D, R) -> bool, le: (D, R, R) -> bool)
    requires q.count != Some(true) && q.skip.Some? && q.skip.value >= 0
    ensures var listed := Execute(stored, q, defaultLimit, matches, le).records;
            var ordered := Ordered(stored, q, matches, le);
            var remaining := if q.skip.value <= |ordered| then |ordered| - q.skip.value else 0;
            var limit := EffectiveLimit(q.limit, defaultLimit);
            && |listed| == (if limit.None? || limit.value == 0 || remaining <= Magnitude(limit.value)
                            then remaining else Magnitude(limit.value))
            && forall i :: 0 <= i < |listed| ==> listed[i] == ordered[q.skip.value + i]
  {
  }

  /**
   * The count equals the length of the list the same query gives with no
   * skip and no limit, as long as the caller's default limit does not cut
   * that list: no default, a default of 0, or one the count stays within.
   */
  lemma CountEqualsUnpagedList<D, R(!new)>(stored: seq<R>, q: Query<D>, defaultLimit: Option<nat>,
                                              matches: (D, R) -> bool, le: (D, R, R) -> bool)
    requires q.count == Some(true)
    requires defaultLimit.None? || defaultLimit.value == 0
             || Execute(stored, q, defaultLimit, matches, le).count <= defaultLimit.value
    ensures var unpaged := q.(count := None, skip := None, limit := None);
            Execute(stored, q, defaultLimit, matches, le).count
            == |Execute(stored, unpaged, defaultLimit, matches, le).records|
  {
  }

  /**
   * The other side: when more records match than a positive default limit,
   * the unpaged list stops at the default while the count does not.
   */
  lemma CountExceedsDefaultPage<D, R(!new)>(stored: seq<R>, q: Query<D>, defaultLimit: Option<nat>,
                                               matches: (D, R) -> bool, le: (D, R, R) -> bool)
    requires q.count == Some(true) && defaultLimit.Some? && defaultLimit.value > 0
    requires Execute(stored, q, defaultLimit, matches, le).count > defaultLimit.value
    ensures var unpaged := q.(count := None, skip := None, limit := None);
            |Execute(stored, unpaged, defaultLimit, matches, le).records| == defaultLimit.value
              < Execute(stored, q, defaultLimit, matches, le).count
  {
  }

  /** With no filter, no sort, no skip and no limit the whole collection is listed as stored. */
  lemma NoWhereListsAll<D, R(!new)>(stored: seq<R>, q: Query<D>, matches: (D, R) -> bool, le: (D, R, R) -> bool)
    requires q.where.None? && q.sort.None? && q.skip.None? && q.limit.None? && q.count != Some(true)
    ensures Execute(stored, q, None, matches, le) == Listed(stored)
  {
    FindAll(stored, matches);
  }

  /** With no filter the count is the size of the collection. */
  lemma NoWhereCountsAll<D, R(!new)>(stored: seq<R>, q: Query<D>, defaultLimit: Option<nat>,
                                        matches: (D, R) -> bool, le: (D, R, R) -> bool)
    requires q.where.None? && q.count == Some(true)
    ensures Execute(stored, q, defaultLimit, matches, le) == Counted(|stored|)
  {
    FindAll(stored, matches);
  }

  /** With a sort document and a total preorder, the list comes out in that order. */
  lemma ListedSorted<D, R(!new)>(stored: seq<R>, q: Query<D>, defaultLimit: Option<nat>,
                                    matches: (D, R) -> bool, le: (D, R, R) -> bool)
    requires q.sort.Some? && TotalPreorder(q.sort.value, le)
    requires Execute(stored, q, defaultLimit, matches, le).Listed?
    ensures Sorted(Execute(stored, q, defaultLimit, matches, le).records, q.sort.value, le)
  {
    var found := Find(stored, q.where, matches);
    SortBySorted(found, q.sort.value, le);
  }
}

/**
 * The container placement pool (`DockerManager`): per language, the
 * containers that can take another session ("reusable", below `MaxUsers`
 * users) and those that are full ("filled", at `MaxUsers`), a running count
 * per language and the resources last granted to each container.
 *
 * Each mutex-guarded operation is one atomic method. The container engine is
 * a parameter: a create request either returns a started container's id or
 * fails, and a removal either succeeds or fails.
 */
module Pool {
  import opened Wrappers
  import opened Types
  import opened LangConfig
  import opened Autoscale

  /** language -> (container id -> user count) */
  type Buckets = map<string, map<string, int>>

  /** A read of `m[lang]` in Go: a missing language reads as an empty map. */
  function Bucket(m: Buckets, lang: string): map<string, int> {
    if lang in m then m[lang] else map[]
  }

  /** A read of `runningContainers[lang]` in Go: a missing language reads as 0. */
  function Running(running: map<string, int>, lang: string): int {
    if lang in running then running[lang] else 0
  }

  /** The settings the monitor reads for `lang`: Go's zero value for a key
      missing from the table. */
  function OptionsOf(lang: string): LangOptions {
    if lang in LangImages then LangImages[lang] else LangOptions("", false, 0, 0, 0, 0, 0, 0, 0, 0)
  }

  datatype PoolState = PoolState(
    reusable: Buckets,
    filled: Buckets,
    running: map<string, int>,
    resources: map<string, ContainerResources>)

  /** The empty pool of a new manager. */
  const Empty: PoolState := PoolState(map[], map[], map[], map[])

  datatype PoolError = UnsupportedLanguage | CreateFailed | StartFailed | RemoveFailed

  /** The engine's answer to a create-and-start request. */
  datatype CreateReply = Started(id: string) | CreateRefused | StartRefused

  // ---------------------------------------------------------------------------
  // The invariant
  // ---------------------------------------------------------------------------

  /** Every language with containers has both buckets, and only supported languages have them. */
  ghost predicate Shape(s: PoolState) {
    s.reusable.Keys == s.filled.Keys && s.reusable.Keys <= LangImages.Keys
  }

  /** A container id sits in at most one bucket of at most one language. */
  ghost predicate Unique(s: PoolState) {
    (forall l1, l2, id | id in Bucket(s.reusable, l1) && id in Bucket(s.reusable, l2) :: l1 == l2)
    && (forall l1, l2, id | id in Bucket(s.filled, l1) && id in Bucket(s.filled, l2) :: l1 == l2)
    && (forall l1, l2, id | id in Bucket(s.reusable, l1) :: id !in Bucket(s.filled, l2))
  }

  /** Reusable counts lie in 1..MaxUsers-1, filled counts equal MaxUsers; ids are non-empty. */
  ghost predicate Counts(s: PoolState) {
    (forall l, id | id in Bucket(s.reusable, l) :: id != "" && 1 <= Bucket(s.reusable, l)[id] < MaxUsers)
    && (forall l, id | id in Bucket(s.filled, l) :: id != "" && Bucket(s.filled, l)[id] == MaxUsers)
  }

  /** The running count of each language is the number of its containers, and
      a language whose count is 0 has no entry. */
  ghost predicate Tally(s: PoolState) {
    (forall l | l in s.running :: s.running[l] > 0)
    && (forall l :: Running(s.running, l) == |Bucket(s.reusable, l)| + |Bucket(s.filled, l)|)
  }

  /** Every container has a resource record within its language's bounds. */
  ghost predicate Records(s: PoolState) {
    ReusableRecords(s) && FilledRecords(s)
  }

  ghost predicate ReusableRecords(s: PoolState) {
    forall l, id | id in Bucket(s.reusable, l) :: id in s.resources && InBounds(s.resources[id], OptionsOf(l))
  }

  ghost predicate FilledRecords(s: PoolState) {
    forall l, id | id in Bucket(s.filled, l) :: id in s.resources && InBounds(s.resources[id], OptionsOf(l))
  }

  ghost predicate Inv(s: PoolState) {
    Shape(s) && Unique(s) && Counts(s) && Tally(s) && Records(s)
  }

  /** An id the engine hands out: non-empty and unknown to the pool. */
  ghost predicate Fresh(s: PoolState, id: string) {
    id != "" && id !in s.resources
    && (forall l :: id !in Bucket(s.reusable, l) && id !in Bucket(s.filled, l))
  }

  lemma EmptyInv()
    ensures Inv(Empty)
  {
  }

  // ---------------------------------------------------------------------------
  // Transitions
  // ---------------------------------------------------------------------------

  /** `CreateContainer`'s bookkeeping after a successful start: one more running
      container for `lang`, both buckets exist, and the record starts at the
      language's minimum. */
  function Created(s: PoolState, lang: string, id: string): (t: PoolState)
    requires lang in LangImages
    ensures lang in t.reusable && lang in t.filled
    ensures Running(t.running, lang) == Running(s.running, lang) + 1
    ensures t.resources == s.resources[id := ContainerResources(LangImages[lang].minMem, LangImages[lang].minCpu)]
  {
    var opt := LangImages[lang];
    PoolState(
      if lang in s.reusable then s.reusable else s.reusable[lang := map[]],
      if lang in s.filled then s.filled else s.filled[lang := map[]],
      s.running[lang := Running(s.running, lang) + 1],
      s.resources[id := ContainerResources(opt.minMem, opt.minCpu)])
  }

  /** `FindContainer` records a freshly created container with one user. */
  function Placed(s: PoolState, lang: string, id: string): PoolState
    requires lang in s.reusable
  {
    s.(reusable := s.reusable[lang := s.reusable[lang][id := 1]])
  }

  /** `FindContainer` reuses `best`: one more user, moving it to filled when it
      reaches `MaxUsers`. */
  function Reused(s: PoolState, lang: string, best: string): PoolState
    requires lang in s.reusable && best in s.reusable[lang]
  {
    var n := s.reusable[lang][best];
    if n == MaxUsers - 1 then
      s.(reusable := s.reusable[lang := s.reusable[lang] - {best}],
         filled := s.filled[lang := Bucket(s.filled, lang)[best := n + 1]])
    else
      s.(reusable := s.reusable[lang := s.reusable[lang][best := n + 1]])
  }

  /** `RemoveContainer`'s bookkeeping: one fewer running container (the entry
      goes at 0) and the id leaves both buckets and the records. */
  function Removed(s: PoolState, id: string, lang: string): (t: PoolState)
    ensures lang in t.reusable && lang in t.filled
    ensures id !in t.resources && id !in t.reusable[lang] && id !in t.filled[lang]
  {
    var n := Running(s.running, lang) - 1;
    PoolState(
      s.reusable[lang := Bucket(s.reusable, lang) - {id}],
      s.filled[lang := Bucket(s.filled, lang) - {id}],
      if n == 0 then s.running - {lang} else s.running[lang := n],
      s.resources - {id})
  }

  /** `DecreaseUser` on a reusable container: one user fewer, or removal of the
      container when its last user leaves. */
  function ReleasedReusable(s: PoolState, lang: string, id: string): PoolState
    requires lang in s.reusable && id in s.reusable[lang]
  {
    var n := s.reusable[lang][id];
    if n > 1 then s.(reusable := s.reusable[lang := s.reusable[lang][id := n - 1]])
    else Removed(s.(reusable := s.reusable[lang := s.reusable[lang] - {id}]), id, lang)
  }

  /** `DecreaseUser` on a filled container: one user fewer, and back to
      reusable with `MaxUsers - 1` users once below `MaxUsers`. */
  function ReleasedFilled(s: PoolState, lang: string, id: string): PoolState
    requires lang in s.filled && id in s.filled[lang] && lang in s.reusable
  {
    var n := s.filled[lang][id] - 1;
    if n < MaxUsers then
      s.(filled := s.filled[lang := s.filled[lang] - {id}],
         reusable := s.reusable[lang := s.reusable[lang][id := MaxUsers - 1]])
    else
      s.(filled := s.filled[lang := s.filled[lang][id := n]])
  }

  /** The language whose bucket holds `id`, if any. */
  ghost function Holder(m: Buckets, id: string): (r: Option<string>)
    ensures r.Some? ==> r.value in m && id in m[r.value]
    ensures r.None? ==> forall l :: id !in Bucket(m, l)
  {
    if exists l :: id in Bucket(m, l) then Some(var l :| id in Bucket(m, l); l) else None
  }

  /** `DecreaseUser` as a whole: act on the bucket holding `id`; an id the pool
      does not know changes nothing. */
  ghost function Released(s: PoolState, id: string): PoolState
    requires s.filled.Keys <= s.reusable.Keys
  {
    match Holder(s.reusable, id)
    case Some(l) => ReleasedReusable(s, l, id)
    case None =>
      match Holder(s.filled, id)
      case Some(l) => ReleasedFilled(s, l, id)
      case None => s
  }

  /** The number of users of `id` in `lang`'s buckets (0 when it has none). */
  function Users(s: PoolState, lang: string, id: string): int {
    if id in Bucket(s.reusable, lang) then Bucket(s.reusable, lang)[id]
    else if id in Bucket(s.filled, lang) then Bucket(s.filled, lang)[id]
    else 0
  }

  /** `best` has the fewest users among `bucket`'s containers. */
  predicate LeastLoaded(bucket: map<string, int>, best: string) {
    best in bucket && forall k | k in bucket :: bucket[best] <= bucket[k]
  }

  /** `FindContainer` when it creates a container: the bookkeeping of a
      successful `CreateContainer`, then the new id recorded with one user. */
  function Acquired(s: PoolState, lang: string, id: string): PoolState
    requires lang in LangImages
  {
    Placed(Created(s, lang, id), lang, id)
  }

  // ---------------------------------------------------------------------------
  // What each transition does to the buckets
  // ---------------------------------------------------------------------------

  lemma AcquiredKeys(s: PoolState, lang: string, id: string)
    requires lang in LangImages
    ensures Acquired(s, lang, id).reusable.Keys == s.reusable.Keys + {lang}
    ensures Acquired(s, lang, id).filled.Keys == s.filled.Keys + {lang}
  {
  }

  lemma AcquiredReusable(s: PoolState, lang: string, id: string)
    requires lang in LangImages
    ensures forall l :: Bucket(Acquired(s, lang, id).reusable, l)
                        == if l == lang then Bucket(s.reusable, l)[id := 1] else Bucket(s.reusable, l)
  {
  }

  lemma AcquiredFilled(s: PoolState, lang: string, id: string)
    requires lang in LangImages
    ensures forall l :: Bucket(Acquired(s, lang, id).filled, l) == Bucket(s.filled, l)
  {
  }

  lemma AcquiredRunning(s: PoolState, lang: string, id: string)
    requires lang in LangImages
    ensures forall l :: Running(Acquired(s, lang, id).running, l)
                        == if l == lang then Running(s.running, l) + 1 else Running(s.running, l)
  {
  }

  // ---------------------------------------------------------------------------
  // The transitions keep the invariant
  // ---------------------------------------------------------------------------

  lemma AcquiredUnique(s: PoolState, lang: string, id: string)
    requires Unique(s) && lang in LangImages && Fresh(s, id)
    ensures Unique(Acquired(s, lang, id))
  {
    AcquiredMembers(s, lang, id);
  }

  lemma AcquiredMembers(s: PoolState, lang: string, id: string)
    requires lang in LangImages
    ensures forall l, x :: x in Bucket(Acquired(s, lang, id).reusable, l)
                           <==> x in Bucket(s.reusable, l) || (l == lang && x == id)
    ensures forall l, x :: x in Bucket(Acquired(s, lang, id).filled, l) <==> x in Bucket(s.filled, l)
  {
    AcquiredReusable(s, lang, id);
    AcquiredFilled(s, lang, id);
  }

  lemma AcquiredCounts(s: PoolState, lang: string, id: string)
    requires Counts(s) && lang in LangImages && Fresh(s, id)
    ensures Counts(Acquired(s, lang, id))
  {
    AcquiredReusable(s, lang, id);
    AcquiredFilled(s, lang, id);
  }

  lemma AcquiredTally(s: PoolState, lang: string, id: string)
    requires Tally(s) && lang in LangImages && Fresh(s, id)
    ensures Tally(Acquired(s, lang, id))
  {
    AcquiredReusable(s, lang, id);
    AcquiredFilled(s, lang, id);
    AcquiredRunning(s, lang, id);
  }

  lemma AcquiredRecords(s: PoolState, lang: string, id: string)
    requires Records(s) && lang in LangImages && Fresh(s, id)
    ensures Records(Acquired(s, lang, id))
  {
    AcquiredReusable(s, lang, id);
    AcquiredFilled(s, lang, id);
    TableWellFormed(lang);
  }

  lemma AcquiredKeepsInv(s: PoolState, lang: string, id: string)
    requires Inv(s) && lang in LangImages && Fresh(s, id)
    ensures Inv(Acquired(s, lang, id))
  {
    AcquiredKeys(s, lang, id);
    AcquiredUnique(s, lang, id);
    AcquiredCounts(s, lang, id);
    AcquiredTally(s, lang, id);
    AcquiredRecords(s, lang, id);
  }

  // Reuse

  lemma ReusedMoveKeys(s: PoolState, lang: string, best: string)
    requires lang in s.reusable && best in s.reusable[lang] && s.reusable[lang][best] == MaxUsers - 1
    ensures Reused(s, lang, best).reusable.Keys == s.reusable.Keys
    ensures Reused(s, lang, best).filled.Keys == s.filled.Keys + {lang}
    ensures Reused(s, lang, best).running == s.running
    ensures Reused(s, lang, best).resources == s.resources
  {
  }

  lemma ReusedMoveReusable(s: PoolState, lang: string, best: string)
    requires lang in s.reusable && best in s.reusable[lang] && s.reusable[lang][best] == MaxUsers - 1
    ensures forall l :: Bucket(Reused(s, lang, best).reusable, l)
                        == if l == lang then Bucket(s.reusable, l) - {best} else Bucket(s.reusable, l)
  {
  }

  lemma ReusedMoveFilled(s: PoolState, lang: string, best: string)
    requires lang in s.reusable && best in s.reusable[lang] && s.reusable[lang][best] == MaxUsers - 1
    ensures forall l :: Bucket(Reused(s, lang, best).filled, l)
                        == if l == lang then Bucket(s.filled, l)[best := MaxUsers] else Bucket(s.filled, l)
  {
  }

  lemma ReusedUnique(s: PoolState, lang: string, best: string)
    requires Unique(s) && lang in s.reusable && best in s.reusable[lang] && s.reusable[lang][best] == MaxUsers - 1
    ensures Unique(Reused(s, lang, best))
  {
    ReusedMoveReusable(s, lang, best);
    ReusedMoveFilled(s, lang, best);
    assert best in Bucket(s.reusable, lang);
  }

  lemma ReusedCounts(s: PoolState, lang: string, best: string)
    requires Counts(s) && lang in s.reusable && best in s.reusable[lang] && s.reusable[lang][best] == MaxUsers - 1
    ensures Counts(Reused(s, lang, best))
  {
    ReusedMoveReusable(s, lang, best);
    ReusedMoveFilled(s, lang, best);
    assert best in Bucket(s.reusable, lang);
  }

  /** Removing a present key shrinks a map by one, adding an absent key grows it by one. */
  lemma RemoveOne(m: map<string, int>, k: string)
    requires k in m
    ensures |m - {k}| == |m| - 1
  {
    assert (m - {k}).Keys == m.Keys - {k};
  }

  lemma AddOne(m: map<string, int>, k: string, v: int)
    requires k !in m
    ensures |m[k := v]| == |m| + 1
  {
    assert m[k := v].Keys == m.Keys + {k};
  }

  lemma ReusedTally(s: PoolState, lang: string, best: string)
    requires Tally(s) && Unique(s) && lang in s.reusable && best in s.reusable[lang] && s.reusable[lang][best] == MaxUsers - 1
    ensures Tally(Reused(s, lang, best))
  {
    ReusedMoveKeys(s, lang, best);
    ReusedMoveReusable(s, lang, best);
    ReusedMoveFilled(s, lang, best);
    assert best in Bucket(s.reusable, lang);
    assert best !in Bucket(s.filled, lang);
    RemoveOne(Bucket(s.reusable, lang), best);
    AddOne(Bucket(s.filled, lang), best, MaxUsers);
  }

  lemma ReusedRecords(s: PoolState, lang: string, best: string)
    requires Records(s) && lang in s.reusable && best in s.reusable[lang] && s.reusable[lang][best] == MaxUsers - 1
    ensures Records(Reused(s, lang, best))
  {
    ReusedMoveKeys(s, lang, best);
    ReusedMoveReusable(s, lang, best);
    ReusedMoveFilled(s, lang, best);
    assert best in Bucket(s.reusable, lang);
  }

  lemma ReusedKeepsInv(s: PoolState, lang: string, best: string)
    requires Inv(s) && lang in s.reusable && best in s.reusable[lang]
    ensures Inv(Reused(s, lang, best))
  {
    assert best in Bucket(s.reusable, lang);
    assert s.reusable[lang][best] == MaxUsers - 1;
    ReusedMoveKeys(s, lang, best);
    ReusedUnique(s, lang, best);
    ReusedCounts(s, lang, best);
    ReusedTally(s, lang, best);
    ReusedRecords(s, lang, best);
  }

  // Release of a reusable container's last user

  lemma DroppedFrame(s: PoolState, lang: string, id: string)
    requires lang in s.reusable && id in s.reusable[lang] && s.reusable[lang][id] <= 1
    ensures var t := ReleasedReusable(s, lang, id);
      && t.reusable.Keys == s.reusable.Keys && t.filled.Keys == s.filled.Keys + {lang}
      && t.resources == s.resources - {id}
      && (forall l | l in t.running && l != lang :: l in s.running && t.running[l] == s.running[l])
  {
  }

  lemma DroppedReusable(s: PoolState, lang: string, id: string)
    requires lang in s.reusable && id in s.reusable[lang] && s.reusable[lang][id] <= 1
    ensures forall l :: Bucket(ReleasedReusable(s, lang, id).reusable, l)
                        == if l == lang then Bucket(s.reusable, l) - {id} else Bucket(s.reusable, l)
  {
  }

  lemma DroppedFilled(s: PoolState, lang: string, id: string)
    requires lang in s.reusable && id in s.reusable[lang] && s.reusable[lang][id] <= 1
    ensures forall l :: Bucket(ReleasedReusable(s, lang, id).filled, l)
                        == if l == lang then Bucket(s.filled, l) - {id} else Bucket(s.filled, l)
  {
  }

  lemma DroppedRunning(s: PoolState, lang: string, id: string)
    requires lang in s.reusable && id in s.reusable[lang] && s.reusable[lang][id] <= 1
    ensures forall l :: Running(ReleasedReusable(s, lang, id).running, l)
                        == if l == lang then Running(s.running, l) - 1 else Running(s.running, l)
  {
  }

  lemma DroppedUnique(s: PoolState, lang: string, id: string)
    requires Unique(s) && lang in s.reusable && id in s.reusable[lang] && s.reusable[lang][id] <= 1
    ensures Unique(ReleasedReusable(s, lang, id))
  {
    DroppedReusable(s, lang, id);
    DroppedFilled(s, lang, id);
  }

  lemma DroppedCounts(s: PoolState, lang: string, id: string)
    requires Counts(s) && lang in s.reusable && id in s.reusable[lang] && s.reusable[lang][id] <= 1
    ensures Counts(ReleasedReusable(s, lang, id))
  {
    DroppedReusable(s, lang, id);
    DroppedFilled(s, lang, id);
  }

  lemma DroppedTally(s: PoolState, lang: string, id: string)
    requires Tally(s) && lang in s.reusable && id in s.reusable[lang] && s.reusable[lang][id] <= 1
    requires id !in Bucket(s.filled, lang)
    ensures Tally(ReleasedReusable(s, lang, id))
  {
    DroppedViews(s, lang, id);
    assert id in Bucket(s.reusable, lang);
    DroppedSizes(s, ReleasedReusable(s, lang, id), lang, id);
  }

  lemma DroppedViews(s: PoolState, lang: string, id: string)
    requires lang in s.reusable && id in s.reusable[lang] && s.reusable[lang][id] <= 1
    requires id !in Bucket(s.filled, lang)
    ensures var t := ReleasedReusable(s, lang, id);
      && (forall l :: Bucket(t.reusable, l) == if l == lang then Bucket(s.reusable, l) - {id} else Bucket(s.reusable, l))
      && (forall l :: Bucket(t.filled, l) == Bucket(s.filled, l))
      && (forall l :: Running(t.running, l) == if l == lang then Running(s.running, l) - 1 else Running(s.running, l))
      && (forall l | l in t.running && l != lang :: l in s.running && t.running[l] == s.running[l])
      && (lang in t.running ==> t.running[lang] != 0)
  {
    assert Bucket(s.filled, lang) - {id} == Bucket(s.filled, lang);
  }

  /** Taking `id` out of `lang`'s reusable bucket and one off `lang`'s
      running count keeps the tally. */
  lemma DroppedSizes(s: PoolState, t: PoolState, lang: string, id: string)
    requires Tally(s) && id in Bucket(s.reusable, lang)
    requires forall l :: Bucket(t.reusable, l) == if l == lang then Bucket(s.reusable, l) - {id} else Bucket(s.reusable, l)
    requires forall l :: Bucket(t.filled, l) == Bucket(s.filled, l)
    requires forall l :: Running(t.running, l) == if l == lang then Running(s.running, l) - 1 else Running(s.running, l)
    requires forall l | l in t.running && l != lang :: l in s.running && t.running[l] == s.running[l]
    requires lang in t.running ==> t.running[lang] != 0
    ensures Tally(t)
  {
    RemoveOne(Bucket(s.reusable, lang), id);
    forall l | l in t.running ensures t.running[l] > 0 {
      assert Running(t.running, l) == t.running[l];
      assert Running(s.running, l) == |Bucket(s.reusable, l)| + |Bucket(s.filled, l)|;
    }
    forall l ensures Running(t.running, l) == |Bucket(t.reusable, l)| + |Bucket(t.filled, l)| {
      assert Running(s.running, l) == |Bucket(s.reusable, l)| + |Bucket(s.filled, l)|;
    }
  }

  lemma DroppedRecords(s: PoolState, lang: string, id: string)
    requires Records(s) && lang in s.reusable && id in s.reusable[lang] && s.reusable[lang][id] <= 1
    requires forall l | l != lang :: id !in Bucket(s.reusable, l)
    requires forall l :: id !in Bucket(s.filled, l)
    ensures Records(ReleasedReusable(s, lang, id))
  {
    DroppedFrame(s, lang, id);
    DroppedReusable(s, lang, id);
    DroppedFilled(s, lang, id);
  }

  // Release of a filled container's user

  lemma ReopenedFrame(s: PoolState, lang: string, id: string)
    requires lang in s.filled && id in s.filled[lang] && lang in s.reusable && s.filled[lang][id] - 1 < MaxUsers
    ensures var t := ReleasedFilled(s, lang, id);
      && t.reusable.Keys == s.reusable.Keys && t.filled.Keys == s.filled.Keys
      && t.resources == s.resources && t.running == s.running
  {
  }

  lemma ReopenedReusable(s: PoolState, lang: string, id: string)
    requires lang in s.filled && id in s.filled[lang] && lang in s.reusable && s.filled[lang][id] - 1 < MaxUsers
    ensures forall l :: Bucket(ReleasedFilled(s, lang, id).reusable, l)
                        == if l == lang then Bucket(s.reusable, l)[id := MaxUsers - 1] else Bucket(s.reusable, l)
  {
  }

  lemma ReopenedFilled(s: PoolState, lang: string, id: string)
    requires lang in s.filled && id in s.filled[lang] && lang in s.reusable && s.filled[lang][id] - 1 < MaxUsers
    ensures forall l :: Bucket(ReleasedFilled(s, lang, id).filled, l)
                        == if l == lang then Bucket(s.filled, l) - {id} else Bucket(s.filled, l)
  {
  }

  lemma ReopenedUnique(s: PoolState, lang: string, id: string)
    requires Unique(s) && lang in s.filled && id in s.filled[lang] && lang in s.reusable && s.filled[lang][id] - 1 < MaxUsers
    ensures Unique(ReleasedFilled(s, lang, id))
  {
    ReopenedReusable(s, lang, id);
    ReopenedFilled(s, lang, id);
    assert id in Bucket(s.filled, lang);
  }

  lemma ReopenedCounts(s: PoolState, lang: string, id: string)
    requires Counts(s) && lang in s.filled && id in s.filled[lang] && lang in s.reusable && s.filled[lang][id] - 1 < MaxUsers
    ensures Counts(ReleasedFilled(s, lang, id))
  {
    ReopenedReusable(s, lang, id);
    ReopenedFilled(s, lang, id);
    assert id in Bucket(s.filled, lang);
  }

  lemma ReopenedTally(s: PoolState, lang: string, id: string)
    requires Tally(s) && Unique(s) && lang in s.filled && id in s.filled[lang] && lang in s.reusable && s.filled[lang][id] - 1 < MaxUsers
    ensures Tally(ReleasedFilled(s, lang, id))
  {
    ReopenedFrame(s, lang, id);
    ReopenedReusable(s, lang, id);
    ReopenedFilled(s, lang, id);
    assert id in Bucket(s.filled, lang);
    assert id !in Bucket(s.reusable, lang);
    RemoveOne(Bucket(s.filled, lang), id);
    AddOne(Bucket(s.reusable, lang), id, MaxUsers - 1);
  }

  lemma ReopenedRecords(s: PoolState, lang: string, id: string)
    requires Records(s) && lang in s.filled && id in s.filled[lang] && lang in s.reusable && s.filled[lang][id] - 1 < MaxUsers
    ensures Records(ReleasedFilled(s, lang, id))
  {
    ReopenedFrame(s, lang, id);
    ReopenedReusable(s, lang, id);
    ReopenedFilled(s, lang, id);
    assert id in Bucket(s.filled, lang);
  }

  lemma ReleasedKeepsInv(s: PoolState, id: string)
    requires Inv(s)
    ensures Inv(Released(s, id))
  {
    match Holder(s.reusable, id)
    case Some(lang) =>
      assert id in Bucket(s.reusable, lang);
      DroppedFrame(s, lang, id);
      DroppedUnique(s, lang, id);
      DroppedCounts(s, lang, id);
      assert id !in Bucket(s.filled, lang);
      DroppedTally(s, lang, id);
      assert forall l | l != lang :: id !in Bucket(s.reusable, l);
      assert forall l :: id !in Bucket(s.filled, l);
      DroppedRecords(s, lang, id);
    case None =>
      match Holder(s.filled, id)
      case Some(lang) =>
        assert id in Bucket(s.filled, lang);
        ReopenedFrame(s, lang, id);
        ReopenedUnique(s, lang, id);
        ReopenedCounts(s, lang, id);
        ReopenedTally(s, lang, id);
        ReopenedRecords(s, lang, id);
      case None =>
  }

  // ---------------------------------------------------------------------------
  // Round trips: a release undoes the placement it follows
  // ---------------------------------------------------------------------------

  /** The holder of an id that only one language's bucket holds. */
  lemma HolderIs(m: Buckets, id: string, lang: string)
    requires id in Bucket(m, lang)
    requires forall l | id in Bucket(m, l) :: l == lang
    ensures Holder(m, id) == Some(lang)
  {
  }

  /** Reusing a container and releasing it again restores the pool exactly. */
  lemma ReuseReleaseRoundTrip(s: PoolState, lang: string, best: string)
    requires Inv(s) && lang in s.reusable && best in s.reusable[lang]
    ensures Released(Reused(s, lang, best), best) == s
  {
    assert best in Bucket(s.reusable, lang);
    assert s.reusable[lang][best] == MaxUsers - 1;
    assert lang in s.filled;
    assert forall l | l != lang :: best !in Bucket(s.reusable, l);
    assert forall l :: best !in Bucket(s.filled, l);
    ReuseRelease(s, lang, best);
  }

  lemma ReuseRelease(s: PoolState, lang: string, best: string)
    requires lang in s.reusable && best in s.reusable[lang] && s.reusable[lang][best] == MaxUsers - 1
    requires lang in s.filled && s.filled.Keys <= s.reusable.Keys
    requires forall l | l != lang :: best !in Bucket(s.reusable, l)
    requires forall l :: best !in Bucket(s.filled, l)
    ensures Released(Reused(s, lang, best), best) == s
  {
    var t := Reused(s, lang, best);
    assert Holder(t.reusable, best) == None by {
      ReusedMoveReusable(s, lang, best);
    }
    assert Holder(t.filled, best) == Some(lang) by {
      ReusedMoveFilled(s, lang, best);
      HolderIs(t.filled, best, lang);
    }
    assert best !in Bucket(s.filled, lang);
    assert s.filled[lang][best := MaxUsers] - {best} == s.filled[lang];
    assert (s.reusable[lang] - {best})[best := MaxUsers - 1] == s.reusable[lang];
  }

  /** Creating a container for a session and releasing that session leaves
      every bucket, the running counts and the records as they were; the pool
      is unchanged outright when the language already had its buckets. */
  lemma AcquireReleaseRoundTrip(s: PoolState, lang: string, id: string)
    requires Inv(s) && lang in LangImages && Fresh(s, id)
    ensures var t := Released(Acquired(s, lang, id), id);
      && t.running == s.running && t.resources == s.resources
      && (forall l :: Bucket(t.reusable, l) == Bucket(s.reusable, l))
      && (forall l :: Bucket(t.filled, l) == Bucket(s.filled, l))
    ensures lang in s.reusable ==> Released(Acquired(s, lang, id), id) == s
  {
    assert lang in s.running ==> s.running[lang] != 0;
    AcquireRelease(s, lang, id);
  }

  lemma AcquireRelease(s: PoolState, lang: string, id: string)
    requires lang in LangImages && Fresh(s, id)
    requires s.reusable.Keys == s.filled.Keys
    requires lang in s.running ==> s.running[lang] != 0
    ensures var t := Released(Acquired(s, lang, id), id);
      && t.running == s.running && t.resources == s.resources
      && (forall l :: Bucket(t.reusable, l) == Bucket(s.reusable, l))
      && (forall l :: Bucket(t.filled, l) == Bucket(s.filled, l))
    ensures lang in s.reusable ==> Released(Acquired(s, lang, id), id) == s
  {
    AcquiredReleased(s, lang, id);
    assert id !in Bucket(s.reusable, lang) && id !in Bucket(s.filled, lang);
    AcquiredDropped(s, lang, id);
    RestoredBucket(s.reusable, lang);
    RestoredBucket(s.filled, lang);
  }

  /** Writing a language's bucket back as it was changes no bucket. */
  lemma RestoredBucket(m: Buckets, lang: string)
    ensures forall l :: Bucket(m[lang := Bucket(m, lang)], l) == Bucket(m, l)
    ensures lang in m ==> m[lang := Bucket(m, lang)] == m
  {
    if lang in m {
      assert m[lang := m[lang]] == m;
    }
  }

  lemma AcquiredReleased(s: PoolState, lang: string, id: string)
    requires lang in LangImages && Fresh(s, id) && s.filled.Keys <= s.reusable.Keys
    ensures var a := Acquired(s, lang, id);
      && a.filled.Keys <= a.reusable.Keys
      && lang in a.reusable && id in a.reusable[lang] && Released(a, id) == ReleasedReusable(a, lang, id)
  {
    AcquiredKeys(s, lang, id);
    AcquiredHolder(s, lang, id);
  }

  lemma AcquiredHolder(s: PoolState, lang: string, id: string)
    requires lang in LangImages && Fresh(s, id)
    ensures Holder(Acquired(s, lang, id).reusable, id) == Some(lang)
  {
    AcquiredReusable(s, lang, id);
    HolderIs(Acquired(s, lang, id).reusable, id, lang);
  }

  lemma AcquiredDropped(s: PoolState, lang: string, id: string)
    requires lang in LangImages && id !in s.resources
    requires id !in Bucket(s.reusable, lang) && id !in Bucket(s.filled, lang)
    requires lang in s.running ==> s.running[lang] != 0
    ensures var a := Acquired(s, lang, id);
      lang in a.reusable && id in a.reusable[lang]
      && var t := ReleasedReusable(a, lang, id);
      && t.running == s.running && t.resources == s.resources
      && t.reusable == s.reusable[lang := Bucket(s.reusable, lang)]
      && t.filled == s.filled[lang := Bucket(s.filled, lang)]
  {
    var opt := LangImages[lang];
    var c := ContainerResources(opt.minMem, opt.minCpu);
    AcquiredShape(s, lang, id);
    DropFresh(s, lang, id, c);
  }

  lemma AcquiredShape(s: PoolState, lang: string, id: string)
    requires lang in LangImages
    ensures Acquired(s, lang, id) ==
      PoolState(s.reusable[lang := Bucket(s.reusable, lang)[id := 1]],
                s.filled[lang := Bucket(s.filled, lang)],
                s.running[lang := Running(s.running, lang) + 1],
                s.resources[id := ContainerResources(LangImages[lang].minMem, LangImages[lang].minCpu)])
  {
    var t := Created(s, lang, id);
    assert t.filled == s.filled[lang := Bucket(s.filled, lang)] by {
      if lang in s.filled {
        assert s.filled[lang := s.filled[lang]] == s.filled;
      }
    }
    assert t.reusable[lang := t.reusable[lang][id := 1]] == s.reusable[lang := Bucket(s.reusable, lang)[id := 1]] by {
      if lang in s.reusable {
        assert t.reusable == s.reusable;
      }
    }
  }

  /** Taking out the last user of a container just added to `s` gives back `s`'s views. */
  lemma DropFresh(s: PoolState, lang: string, id: string, c: ContainerResources)
    requires id !in s.resources
    requires id !in Bucket(s.reusable, lang) && id !in Bucket(s.filled, lang)
    requires lang in s.running ==> s.running[lang] != 0
    ensures var a := PoolState(s.reusable[lang := Bucket(s.reusable, lang)[id := 1]],
                               s.filled[lang := Bucket(s.filled, lang)],
                               s.running[lang := Running(s.running, lang) + 1],
                               s.resources[id := c]);
      var t := ReleasedReusable(a, lang, id);
      && t.running == s.running && t.resources == s.resources
      && t.reusable == s.reusable[lang := Bucket(s.reusable, lang)]
      && t.filled == s.filled[lang := Bucket(s.filled, lang)]
  {
    assert s.resources[id := c] - {id} == s.resources;
    var n := Running(s.running, lang);
    if n == 0 {
      assert s.running[lang := 1] - {lang} == s.running;
    } else {
      assert s.running[lang := n + 1][lang := n] == s.running;
    }
    assert Bucket(s.reusable, lang)[id := 1] - {id} - {id} == Bucket(s.reusable, lang);
    assert Bucket(s.filled, lang) - {id} == Bucket(s.filled, lang);
  }

  /** Reuse adds one user to `best` and changes no other container's count. */
  lemma ReusedAddsOneUser(s: PoolState, lang: string, best: string, l: string, id: string)
    requires Unique(s) && lang in s.reusable && best in s.reusable[lang]
    ensures Users(Reused(s, lang, best), l, id) == Users(s, l, id) + (if l == lang && id == best then 1 else 0)
  {
    assert best in Bucket(s.reusable, lang);
    assert best !in Bucket(s.filled, lang);
  }

  // ---------------------------------------------------------------------------
  // The resource monitor's pass
  // ---------------------------------------------------------------------------

  /** The language the monitor finds for `id`: reusable buckets first, then
      filled ones; a language named "" counts as not found. */
  ghost function MonitorLang(s: PoolState, id: string): Option<string> {
    var r := Holder(s.reusable, id);
    if r.Some? && r.value != "" then r
    else
      var f := Holder(s.filled, id);
      if f.Some? && f.value != "" then f else None
  }

  /** The new record the monitor decides for `id`, given the readings that
      succeeded; None when there is no reading, no language or no rule fired. */
  ghost function Decision(s: PoolState, id: string, readings: map<string, Usage>): Option<ContainerResources>
    requires id in s.resources
  {
    if id !in readings then None
    else match MonitorLang(s, id)
      case None => None
      case Some(l) => Scale(s.resources[id], OptionsOf(l), readings[id])
  }

  /** The record after the monitor's pass: the decision, unless the engine
      refused the update. */
  ghost function NewRecord(s: PoolState, id: string, readings: map<string, Usage>, refused: set<string>): ContainerResources
    requires id in s.resources
  {
    var d := Decision(s, id, readings);
    if d.Some? && id !in refused then d.value else s.resources[id]
  }

  ghost function Rescaled(s: PoolState, readings: map<string, Usage>, refused: set<string>): (t: PoolState)
    ensures t.reusable == s.reusable && t.filled == s.filled && t.running == s.running
    ensures t.resources.Keys == s.resources.Keys
  {
    s.(resources := map id | id in s.resources :: NewRecord(s, id, readings, refused))
  }

  /** The monitor's pass keeps the invariant: every record stays within its
      language's bounds. */
  lemma RescaledKeepsInv(s: PoolState, readings: map<string, Usage>, refused: set<string>)
    requires Inv(s)
    ensures Inv(Rescaled(s, readings, refused))
  {
    RescaledRecords(s, readings, refused);
    SameBuckets(s, Rescaled(s, readings, refused));
  }

  lemma RescaledRecords(s: PoolState, readings: map<string, Usage>, refused: set<string>)
    requires Shape(s) && Unique(s) && Records(s)
    ensures Records(Rescaled(s, readings, refused))
  {
    RescaledReusableRecords(s, readings, refused);
    RescaledFilledRecords(s, readings, refused);
  }

  lemma RescaledReusableRecords(s: PoolState, readings: map<string, Usage>, refused: set<string>)
    requires Shape(s) && Unique(s) && Records(s)
    ensures ReusableRecords(Rescaled(s, readings, refused))
  {
    forall l, id | id in Bucket(s.reusable, l)
      ensures var t := Rescaled(s, readings, refused);
        id in t.resources && InBounds(t.resources[id], OptionsOf(l))
    {
      ReusableRecordRescaled(s, l, id, readings, refused);
    }
  }

  lemma ReusableRecordRescaled(s: PoolState, l: string, id: string, readings: map<string, Usage>, refused: set<string>)
    requires Shape(s) && Unique(s) && ReusableRecords(s) && id in Bucket(s.reusable, l)
    ensures var t := Rescaled(s, readings, refused);
      id in t.resources && InBounds(t.resources[id], OptionsOf(l))
  {
    ReusableLang(s, l, id);
    NewRecordInBounds(s, l, id, readings, refused);
  }

  lemma RescaledFilledRecords(s: PoolState, readings: map<string, Usage>, refused: set<string>)
    requires Shape(s) && Unique(s) && Records(s)
    ensures FilledRecords(Rescaled(s, readings, refused))
  {
    forall l, id | id in Bucket(s.filled, l)
      ensures var t := Rescaled(s, readings, refused);
        id in t.resources && InBounds(t.resources[id], OptionsOf(l))
    {
      FilledRecordRescaled(s, l, id, readings, refused);
    }
  }

  lemma FilledRecordRescaled(s: PoolState, l: string, id: string, readings: map<string, Usage>, refused: set<string>)
    requires Shape(s) && Unique(s) && FilledRecords(s) && id in Bucket(s.filled, l)
    ensures var t := Rescaled(s, readings, refused);
      id in t.resources && InBounds(t.resources[id], OptionsOf(l))
  {
    FilledLang(s, l, id);
    NewRecordInBounds(s, l, id, readings, refused);
  }

  lemma ReusableLang(s: PoolState, l: string, id: string)
    requires Shape(s) && Unique(s) && id in Bucket(s.reusable, l)
    ensures l in LangImages && MonitorLang(s, id) == Some(l)
  {
    HolderIs(s.reusable, id, l);
  }

  lemma FilledLang(s: PoolState, l: string, id: string)
    requires Shape(s) && Unique(s) && id in Bucket(s.filled, l)
    ensures l in LangImages && MonitorLang(s, id) == Some(l)
  {
    assert Holder(s.reusable, id) == None;
    HolderIs(s.filled, id, l);
  }

  /** Only the records changed: whatever the invariant says of the buckets still holds. */
  lemma SameBuckets(s: PoolState, t: PoolState)
    requires Inv(s) && Records(t)
    requires t.reusable == s.reusable && t.filled == s.filled && t.running == s.running
    ensures Inv(t)
  {
  }

  /** The monitor's new record for a container of language `l` stays within `l`'s bounds. */
  lemma NewRecordInBounds(s: PoolState, l: string, id: string, readings: map<string, Usage>, refused: set<string>)
    requires l in LangImages && id in s.resources && InBounds(s.resources[id], OptionsOf(l))
    requires MonitorLang(s, id) == Some(l)
    ensures var t := Rescaled(s, readings, refused);
      id in t.resources && InBounds(t.resources[id], OptionsOf(l))
  {
    TableWellFormed(l);
    if id in readings {
      ScaleKeepsBounds(s.resources[id], OptionsOf(l), readings[id]);
    }
  }

  // ---------------------------------------------------------------------------
  // The searches the manager's methods run
  // ---------------------------------------------------------------------------

  /** `FindContainer`'s scan of a language's reusable containers: one with the
      fewest users, or "" when there is none. */
  method LeastLoadedSearch(containers: map<string, int>) returns (best: string)
    requires "" !in containers
    ensures best == "" <==> containers == map[]
    ensures best != "" ==> LeastLoaded(containers, best)
  {
    best := "";
    var todo := containers.Keys;
    while todo != {}
      invariant todo <= containers.Keys
      invariant best == "" <==> todo == containers.Keys
      invariant best != "" ==> best in containers
      invariant best != "" ==> forall k | k in containers && k !in todo :: containers[best] <= containers[k]
      decreases todo
    {
      var k :| k in todo;
      if best == "" || containers[k] < containers[best] {
        best := k;
      }
      todo := todo - {k};
    }
    if best == "" {
      assert containers.Keys == {};
      assert containers == map[];
    }
  }

  /** A scan of every language's bucket for the one holding `id`. */
  method FindLang(m: Buckets, id: string) returns (r: Option<string>)
    ensures r.Some? ==> r.value in m && id in m[r.value]
    ensures r.None? ==> forall l :: id !in Bucket(m, l)
  {
    var todo := m.Keys;
    while todo != {}
      invariant todo <= m.Keys
      invariant forall l | l in m && l !in todo :: id !in m[l]
      decreases todo
    {
      var l :| l in todo;
      if id in m[l] {
        return Some(l);
      }
      todo := todo - {l};
    }
    return None;
  }

  /** The request `CreateContainer` sends for a language: its image, the
      limits of its smallest container, and the sandbox settings every
      container shares. Its limits are those an update to the language's
      minimum would carry, so the first update of a new container is measured
      against what it was created with. */
  function CreateRequestFor(o: LangOptions): (r: CreateRequest)
    ensures r.image == o.image && r.limits == UpdateLimits(o.minMem, o.minCpu)
    ensures r.pidsLimit == PidsLimit && r.ulimits == Ulimits
    ensures r.readOnlyRoot && r.capDrop == ["ALL"] && r.securityOpt == ["no-new-privileges"]
  {
    CreateRequest(o.image, ["sh"], StopTimeout, Limits(o.minMem, o.minMem * 2, CpuPeriod, o.minCpu * CpuUnit),
                  CpuShares, BlkioWeight, PidsLimit, Ulimits, true, ["ALL"], ["no-new-privileges"])
  }

  /** What a create request comes to: the started container's id, or the
      failure, with an unsupported language refused before the engine is asked. */
  function CreateOutcome(lang: string, reply: CreateReply): (r: Result<string, PoolError>)
    ensures r.Ok? <==> lang in LangImages && reply.Started?
  {
    if lang !in LangImages then Err(UnsupportedLanguage)
    else match reply
      case Started(id) => Ok(id)
      case CreateRefused => Err(CreateFailed)
      case StartRefused => Err(StartFailed)
  }

  /** The language's reusable containers all have `MaxUsers` users or more
      (vacuously, when it has none): placement must create a container. */
  predicate NoRoom(bucket: map<string, int>) {
    forall k | k in bucket :: bucket[k] >= MaxUsers
  }

  /** The least-loaded container tells whether any has room. */
  lemma RoomOnLeastLoaded(bucket: map<string, int>, best: string)
    requires best == "" <==> bucket == map[]
    requires best != "" ==> LeastLoaded(bucket, best)
    ensures NoRoom(bucket) <==> best == "" || bucket[best] >= MaxUsers
  {
  }

  /** `DecreaseUser` takes the last user off a reusable container, which removes it. */
  ghost predicate LastUserLeaves(s: PoolState, id: string) {
    match Holder(s.reusable, id)
    case Some(l) => s.reusable[l][id] <= 1
    case None => false
  }

  // ---------------------------------------------------------------------------
  // The manager
  // ---------------------------------------------------------------------------

  class DockerManager {
    var reusable: Buckets
    var filled: Buckets
    var running: map<string, int>
    var resources: map<string, ContainerResources>

    function State(): PoolState
      reads this
    {
      PoolState(reusable, filled, running, resources)
    }

    ghost predicate Valid()
      reads this
    {
      Inv(State())
    }

    /** `NewDockerManager`: a manager with no containers. */
    constructor ()
      ensures State() == Empty && Valid()
    {
      reusable := map[];
      filled := map[];
      running := map[];
      resources := map[];
      new;
      EmptyInv();
    }

    /** Asks the engine for a container of `lang` and, once it has started,
        records it. `request` is the resource configuration sent with the
        request; the record of a started container describes exactly those limits. */
    method CreateContainer(lang: string, reply: CreateReply) returns (r: Result<string, PoolError>, request: Option<CreateRequest>)
      modifies this
      ensures r == CreateOutcome(lang, reply)
      ensures r.Ok? ==> State() == Created(old(State()), lang, r.value)
      ensures r.Err? ==> State() == old(State())
      ensures lang !in LangImages ==> request.None?
      ensures lang in LangImages ==> request == Some(CreateRequestFor(LangImages[lang]))
      ensures r.Ok? ==>
        (r.value in resources
         && request.value.limits == UpdateLimits(resources[r.value].currentMemory, resources[r.value].currentCpu))
    {
      if lang !in LangImages {
        return Err(UnsupportedLanguage), None;
      }
      var opt := LangImages[lang];
      request := Some(CreateRequest(opt.image, ["sh"], StopTimeout,
                                    Limits(opt.minMem, opt.minMem * 2, CpuPeriod, opt.minCpu * CpuUnit),
                                    CpuShares, BlkioWeight, PidsLimit, Ulimits,
                                    true, ["ALL"], ["no-new-privileges"]));
      match reply
      case CreateRefused =>
        r := Err(CreateFailed);
      case StartRefused =>
        r := Err(StartFailed);
      case Started(id) =>
        RecordStarted(lang, id);
        r := Ok(id);
    }

    /** `CreateContainer`'s bookkeeping once container `id` has started. */
    method RecordStarted(lang: string, id: string)
      requires lang in LangImages
      modifies this
      ensures State() == Created(old(State()), lang, id)
    {
      var opt := LangImages[lang];
      running := running[lang := Running(running, lang) + 1];
      if lang !in reusable {
        reusable := reusable[lang := map[]];
      }
      if lang !in filled {
        filled := filled[lang := map[]];
      }
      resources := resources[id := ContainerResources(opt.minMem, opt.minCpu)];
    }

    /** Forgets container `id` of `lang` and asks the engine to remove it; the
        bookkeeping happens whether or not the engine succeeds. */
    method RemoveContainer(id: string, lang: string, removeOk: bool) returns (err: Option<PoolError>)
      modifies this
      ensures State() == Removed(old(State()), id, lang)
      ensures err.None? <==> removeOk
      ensures err.Some? ==> err.value == RemoveFailed
    {
      var n := Running(running, lang) - 1;
      if n == 0 {
        running := running - {lang};
      } else {
        running := running[lang := n];
      }
      reusable := reusable[lang := Bucket(reusable, lang) - {id}];
      filled := filled[lang := Bucket(filled, lang) - {id}];
      resources := resources - {id};
      err := if removeOk then None else Some(RemoveFailed);
    }

    /** Places a session of `lang`: on the least-loaded reusable container, or
        on a new one when there is none with room. `reply` is the engine's
        answer should a container be created. */
    method FindContainer(lang: string, reply: CreateReply) returns (r: Result<string, PoolError>)
      requires "" !in Bucket(reusable, lang)
      modifies this
      ensures NoRoom(Bucket(old(reusable), lang)) ==>
        r == CreateOutcome(lang, reply)
        && State() == (if r.Ok? then Acquired(old(State()), lang, r.value) else old(State()))
      ensures !NoRoom(Bucket(old(reusable), lang)) ==>
        r.Ok? && LeastLoaded(Bucket(old(reusable), lang), r.value)
        && lang in old(reusable) && r.value in old(reusable)[lang]
        && State() == Reused(old(State()), lang, r.value)
      ensures old(Valid()) && (reply.Started? ==> Fresh(old(State()), reply.id)) ==> Valid()
    {
      ghost var s0 := State();
      var containers := Bucket(reusable, lang);
      var best := LeastLoadedSearch(containers);
      RoomOnLeastLoaded(containers, best);
      if best == "" || containers[best] >= MaxUsers {
        if Inv(s0) && lang in LangImages && reply.Started? && Fresh(s0, reply.id) {
          AcquiredKeepsInv(s0, lang, reply.id);
        }
        r := CreateAndPlace(lang, reply);
        return;
      }
      if Inv(s0) {
        ReusedKeepsInv(s0, lang, best);
      }
      AddUser(lang, best);
      return Ok(best);
    }

    /** The creating branch of `FindContainer`: a new container, recorded
        with one user once it has started. */
    method CreateAndPlace(lang: string, reply: CreateReply) returns (r: Result<string, PoolError>)
      modifies this
      ensures r == CreateOutcome(lang, reply)
      ensures State() == (if r.Ok? then Acquired(old(State()), lang, r.value) else old(State()))
    {
      var created, _ := CreateContainer(lang, reply);
      if created.Err? {
        return Err(created.error);
      }
      var id := created.value;
      reusable := reusable[lang := reusable[lang][id := 1]];
      return Ok(id);
    }

    /** One more user on reusable container `best`, which moves to filled when
        it reaches `MaxUsers`. */
    method AddUser(lang: string, best: string)
      requires lang in reusable && best in reusable[lang]
      modifies this
      ensures State() == Reused(old(State()), lang, best)
    {
      var n := reusable[lang][best];
      if n == MaxUsers - 1 {
        reusable := reusable[lang := reusable[lang] - {best}];
        filled := filled[lang := Bucket(filled, lang)[best := n + 1]];
      } else {
        reusable := reusable[lang := reusable[lang][best := n + 1]];
      }
    }

    /** Ends one session on container `id`: one user fewer on a reusable
        container, whose last user takes it away; a filled container with
        room again goes back to reusable. An unknown id changes nothing. */
    method DecreaseUser(id: string, removeOk: bool) returns (err: Option<PoolError>)
      requires Unique(State()) && filled.Keys <= reusable.Keys
      modifies this
      ensures State() == Released(old(State()), id)
      ensures err.Some? <==> !removeOk && LastUserLeaves(old(State()), id)
      ensures err.Some? ==> err.value == RemoveFailed
      ensures old(Valid()) ==> Valid()
    {
      ghost var s0 := State();
      if Inv(s0) {
        ReleasedKeepsInv(s0, id);
      }
      var hit := FindLang(reusable, id);
      if hit.Some? {
        var lang := hit.value;
        assert id in Bucket(reusable, lang);
        HolderIs(reusable, id, lang);
        err := ReleaseReusable(lang, id, removeOk);
        return;
      }
      hit := FindLang(filled, id);
      if hit.Some? {
        var lang := hit.value;
        assert id in Bucket(filled, lang);
        HolderIs(filled, id, lang);
        ReleaseFilled(lang, id);
      }
      return None;
    }

    /** `DecreaseUser` on reusable container `id`: one user fewer, or the
        container's removal when it had one. */
    method ReleaseReusable(lang: string, id: string, removeOk: bool) returns (err: Option<PoolError>)
      requires lang in reusable && id in reusable[lang]
      modifies this
      ensures State() == ReleasedReusable(old(State()), lang, id)
      ensures err.Some? <==> !removeOk && old(reusable)[lang][id] <= 1
      ensures err.Some? ==> err.value == RemoveFailed
    {
      var n := reusable[lang][id];
      if n > 1 {
        reusable := reusable[lang := reusable[lang][id := n - 1]];
        return None;
      }
      reusable := reusable[lang := reusable[lang] - {id}];
      err := RemoveContainer(id, lang, removeOk);
    }

    /** `DecreaseUser` on filled container `id`: one user fewer, and back to
        reusable once below `MaxUsers`. */
    method ReleaseFilled(lang: string, id: string)
      requires lang in filled && id in filled[lang] && lang in reusable
      modifies this
      ensures State() == ReleasedFilled(old(State()), lang, id)
    {
      var n := filled[lang][id] - 1;
      if n < MaxUsers {
        filled := filled[lang := filled[lang] - {id}];
        reusable := reusable[lang := reusable[lang][id := MaxUsers - 1]];
      } else {
        filled := filled[lang := filled[lang][id := n]];
      }
    }

    /** One pass of the resource monitor over the containers it knows of.
        `readings` holds the stats of the containers whose stats could be
        read; the engine refuses the updates for the ids in `refused`. Each
        update request sent is returned in `sent`; a record changes exactly
        when its update is accepted, and then describes the limits sent. */
    method CheckAndUpdateResources(readings: map<string, Usage>, refused: set<string>)
      returns (sent: map<string, Limits>)
      requires Unique(State())
      modifies this
      ensures reusable == old(reusable) && filled == old(filled) && running == old(running)
      ensures State() == Rescaled(old(State()), readings, refused)
      ensures forall id | id in old(resources) :: id in sent <==> Decision(old(State()), id, readings).Some?
      ensures forall id | id in sent :: id in old(resources)
      ensures forall id | id in sent && id !in refused ::
        id in resources && sent[id] == UpdateLimits(resources[id].currentMemory, resources[id].currentCpu)
      ensures old(Valid()) ==> Valid()
    {
      ghost var s0 := State();
      if Inv(s0) {
        RescaledKeepsInv(s0, readings, refused);
      }
      if |resources| == 0 {
        assert Rescaled(s0, readings, refused).resources == resources;
        return map[];
      }
      var res;
      res, sent := RescaleAll(State(), readings, refused);
      resources := res;
    }
  }

  /** The monitor's pass over the records of `s`: each container is decided
      once; an update request is sent for each decision, and the record takes
      the decision unless the engine refused it. */
  method RescaleAll(s: PoolState, readings: map<string, Usage>, refused: set<string>)
    returns (res: map<string, ContainerResources>, sent: map<string, Limits>)
    requires Unique(s)
    ensures res == Rescaled(s, readings, refused).resources
    ensures forall id | id in s.resources :: id in sent <==> Decision(s, id, readings).Some?
    ensures sent.Keys <= s.resources.Keys
    ensures forall id | id in sent && id !in refused ::
      id in res && sent[id] == UpdateLimits(res[id].currentMemory, res[id].currentCpu)
  {
    sent := map[];
    res := s.resources;
    var todo := res.Keys;
    while todo != {}
      invariant todo <= s.resources.Keys
      invariant res.Keys == s.resources.Keys
      invariant forall id | id in s.resources ::
        res[id] == if id in todo then s.resources[id] else NewRecord(s, id, readings, refused)
      invariant forall id | id in s.resources && id !in todo ::
        id in sent <==> Decision(s, id, readings).Some?
      invariant sent.Keys <= s.resources.Keys - todo
      invariant forall id | id in sent && id !in refused ::
        sent[id] == UpdateLimits(res[id].currentMemory, res[id].currentCpu)
      decreases todo
    {
      var id :| id in todo;
      todo := todo - {id};
      var next := DecideOne(s, id, readings);
      if next.Some? {
        sent := sent[id := UpdateLimits(next.value.currentMemory, next.value.currentCpu)];
        if id !in refused {
          res := res[id := next.value];
        }
      }
    }
    RescaledResources(s, readings, refused, res);
  }

  /** A map holding the monitor's new record for every container is the
      monitor's records. */
  lemma RescaledResources(s: PoolState, readings: map<string, Usage>, refused: set<string>, res: map<string, ContainerResources>)
    requires res.Keys == s.resources.Keys
    requires forall id | id in s.resources :: res[id] == NewRecord(s, id, readings, refused)
    ensures res == Rescaled(s, readings, refused).resources
  {
  }

  /** The monitor's work on one container: no decision without a reading;
      otherwise look its language up among the reusable buckets, then the
      filled ones, and apply the scaling rule with that language's bounds. */
  method DecideOne(s: PoolState, id: string, readings: map<string, Usage>) returns (d: Option<ContainerResources>)
    requires Unique(s) && id in s.resources
    ensures d == Decision(s, id, readings)
  {
    if id !in readings {
      return None;
    }
    var lang := "";
    var hit := FindLang(s.reusable, id);
    if hit.Some? {
      lang := hit.value;
      assert id in Bucket(s.reusable, lang);
      HolderIs(s.reusable, id, lang);
    }
    if lang == "" {
      hit := FindLang(s.filled, id);
      if hit.Some? {
        lang := hit.value;
        assert id in Bucket(s.filled, lang);
        HolderIs(s.filled, id, lang);
      }
    }
    if lang == "" {
      return None;
    }
    d := Scale(s.resources[id], OptionsOf(lang), readings[id]);
  }
}

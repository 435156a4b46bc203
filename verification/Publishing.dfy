/** Publishing routes under a hash version (pkg/cache/local_cache.go).  A sync that finds a new hash starts
    a push in the background; a push writes the repo and then stores the version, or fails before that.
    `R` is the route content up to order, which the hash ignores. */
module Publishing {
  import opened Options

  datatype State<R> = State(version: string, repo: Option<R>, queued: multiset<R>, written: multiset<R>)

  datatype Step<R> =
    | Sync(routes: R)
    | Fail(pushed: R)
    | Write(pushed: R)
    | Commit(pushed: R)

  ghost predicate Initial<R>(s: State<R>) {
    s == State("", None, multiset{}, multiset{})
  }

  ghost predicate Takes<R>(hash: R -> string, s: State<R>, step: Step<R>, s': State<R>) {
    match step
    case Sync(r) => s' == if s.version == hash(r) then s else s.(queued := s.queued + multiset{r})
    case Fail(r) => r in s.queued && s' == s.(queued := s.queued - multiset{r})
    case Write(r) => r in s.queued
      && s' == s.(queued := s.queued - multiset{r}, repo := Some(r), written := s.written + multiset{r})
    case Commit(r) => r in s.written && s' == s.(written := s.written - multiset{r}, version := hash(r))
  }

  /** The hash tells contents apart and is never the initial, empty version. */
  ghost predicate GoodHash<R(!new)>(hash: R -> string) {
    && (forall r :: hash(r) != "")
    && forall r, q :: hash(r) == hash(q) ==> r == q
  }

  ghost predicate IsRun<R>(hash: R -> string, states: seq<State<R>>, steps: seq<Step<R>>) {
    && |states| == |steps| + 1 && Initial(states[0])
    && forall i :: 0 <= i < |steps| ==> Takes(hash, states[i], steps[i], states[i + 1])
  }

  // ----------------------------------------------------------------- every run

  function Written<R>(writes: seq<R>, step: Step<R>): seq<R> {
    if step.Write? then writes + [step.pushed] else writes
  }

  function Committed<R>(commits: seq<R>, step: Step<R>): seq<R> {
    if step.Commit? then commits + [step.pushed] else commits
  }

  /** The contents written to the repo, in the order of the writes. */
  function Writes<R>(steps: seq<Step<R>>): seq<R> {
    if steps == [] then [] else Written(Writes(steps[..|steps| - 1]), steps[|steps| - 1])
  }

  /** The contents whose version was stored, in the order in which that happened. */
  function Commits<R>(steps: seq<Step<R>>): seq<R> {
    if steps == [] then [] else Committed(Commits(steps[..|steps| - 1]), steps[|steps| - 1])
  }

  function Last<R>(s: seq<R>): Option<R> {
    if s == [] then None else Some(s[|s| - 1])
  }

  lemma OneStepMore<R>(steps: seq<Step<R>>, i: nat)
    requires i < |steps|
    ensures Writes(steps[..i + 1]) == Written(Writes(steps[..i]), steps[i])
    ensures Commits(steps[..i + 1]) == Committed(Commits(steps[..i]), steps[i])
  {
    assert steps[..i + 1][..i] == steps[..i];
  }

  /** The repo holds the last write, the version is that of the last commit, and the writes are the
      commits together with the pushes that are in between. */
  ghost predicate Tells<R>(hash: R -> string, s: State<R>, writes: seq<R>, commits: seq<R>) {
    && s.repo == Last(writes)
    && s.version == (match Last(commits) case None => "" case Some(r) => hash(r))
    && multiset(writes) == multiset(commits) + s.written
  }

  lemma TellsStep<R>(hash: R -> string, s: State<R>, step: Step<R>, s': State<R>, writes: seq<R>, commits: seq<R>)
    requires Tells(hash, s, writes, commits) && Takes(hash, s, step, s')
    ensures Tells(hash, s', Written(writes, step), Committed(commits, step))
  {
    if step.Write? {
      assert multiset(writes + [step.pushed]) == multiset(writes) + multiset{step.pushed};
    } else if step.Commit? {
      var one := multiset{step.pushed};
      assert s.written == s'.written + one;
      assert multiset(commits + [step.pushed]) == multiset(commits) + one;
    }
  }

  /** However pushes overlap, the history tells the state. */
  lemma {:induction false} HistoryAt<R>(hash: R -> string, states: seq<State<R>>, steps: seq<Step<R>>, i: nat)
    requires IsRun(hash, states, steps) && i < |states|
    ensures Tells(hash, states[i], Writes(steps[..i]), Commits(steps[..i]))
  {
    if i > 0 {
      HistoryAt(hash, states, steps, i - 1);
      OneStepMore(steps, i - 1);
      TellsStep(hash, states[i - 1], steps[i - 1], states[i], Writes(steps[..i - 1]), Commits(steps[..i - 1]));
    }
  }

  /** The version is the initial one of an empty repo, or the hash of what the repo holds. */
  ghost predicate Matches<R>(hash: R -> string, s: State<R>) {
    match s.repo case None => s.version == "" case Some(r) => s.version == hash(r)
  }

  /** In every run, with any pushes in flight and in whatever order they finish, the version is right
      exactly when the content written last is also the content whose version was stored last. */
  lemma VersionMatchesRepoIff<R(!new)>(hash: R -> string, states: seq<State<R>>, steps: seq<Step<R>>, i: nat)
    requires GoodHash(hash) && IsRun(hash, states, steps) && i < |states|
    ensures Matches(hash, states[i]) <==> Last(Writes(steps[..i])) == Last(Commits(steps[..i]))
  {
    HistoryAt(hash, states, steps, i);
  }

  /** And a sync that skips publishing is right exactly then. */
  lemma SkipRightIff<R(!new)>(hash: R -> string, states: seq<State<R>>, steps: seq<Step<R>>, i: nat, r: R)
    requires GoodHash(hash) && IsRun(hash, states, steps) && i < |states|
    requires states[i].version == hash(r)
    ensures states[i].repo == Some(r) <==> Last(Writes(steps[..i])) == Last(Commits(steps[..i]))
  {
    HistoryAt(hash, states, steps, i);
  }

  // ------------------------------------------------------------- orderly pushes

  /** Overlapping pushes are harmless while they store their versions in the order of their writes: the
      version is right whenever no push is between its write and its version update. */
  lemma InOrderMatches<R(!new)>(hash: R -> string, states: seq<State<R>>, steps: seq<Step<R>>, i: nat)
    requires GoodHash(hash) && IsRun(hash, states, steps) && i < |states|
    requires Commits(steps[..i]) <= Writes(steps[..i]) && states[i].written == multiset{}
    ensures Matches(hash, states[i])
  {
    HistoryAt(hash, states, steps, i);
    var writes, commits := Writes(steps[..i]), Commits(steps[..i]);
    assert |multiset(writes)| == |writes| && |multiset(commits)| == |commits|;
    assert writes == commits;
    VersionMatchesRepoIff(hash, states, steps, i);
  }

  /** No push writes the repo while another is between its write and its version update. */
  ghost predicate Serial<R>(s: State<R>, step: Step<R>) {
    step.Write? ==> s.written == multiset{}
  }

  /** At most the last write is not yet stored. */
  ghost predicate OneAhead<R>(s: State<R>, writes: seq<R>, commits: seq<R>) {
    if s.written == multiset{} then writes == commits
    else writes != [] && writes == commits + [writes[|writes| - 1]] && s.written == multiset{writes[|writes| - 1]}
  }

  lemma SerialStep<R>(hash: R -> string, s: State<R>, step: Step<R>, s': State<R>, writes: seq<R>, commits: seq<R>)
    requires OneAhead(s, writes, commits) && Takes(hash, s, step, s') && Serial(s, step)
    ensures OneAhead(s', Written(writes, step), Committed(commits, step))
  {
    if step.Write? {
      assert s'.written == multiset{step.pushed};
      assert step.pushed in s'.written;
    } else if step.Commit? {
      assert s.written == multiset{step.pushed};
      assert s'.written == multiset{};
    }
  }

  /** Pushes that do not overlap store their versions in the order of their writes. */
  lemma {:induction false} SerialInOrder<R>(hash: R -> string, states: seq<State<R>>, steps: seq<Step<R>>, i: nat)
    requires IsRun(hash, states, steps) && i < |states|
    requires forall j :: 0 <= j < i ==> Serial(states[j], steps[j])
    ensures OneAhead(states[i], Writes(steps[..i]), Commits(steps[..i]))
    ensures Commits(steps[..i]) <= Writes(steps[..i])
  {
    if i > 0 {
      SerialInOrder(hash, states, steps, i - 1);
      OneStepMore(steps, i - 1);
      assert Serial(states[i - 1], steps[i - 1]);
      SerialStep(hash, states[i - 1], steps[i - 1], states[i], Writes(steps[..i - 1]), Commits(steps[..i - 1]));
    }
  }

  /** So where pushes never overlap the version is right whenever none is half done. */
  lemma SerialMatches<R(!new)>(hash: R -> string, states: seq<State<R>>, steps: seq<Step<R>>, i: nat)
    requires GoodHash(hash) && IsRun(hash, states, steps) && i < |states|
    requires forall j :: 0 <= j < i ==> Serial(states[j], steps[j])
    requires states[i].written == multiset{}
    ensures Matches(hash, states[i])
  {
    SerialInOrder(hash, states, steps, i);
    InOrderMatches(hash, states, steps, i);
  }

  /** Writes that overlap are not safe: the repo can be left with one content and the version of another,
      with nothing in flight, so that a sync with the first skips although the repo holds the second. */
  lemma OverlappingPushesDiverge<R(!new)>(hash: R -> string, a: R, b: R)
    returns (states: seq<State<R>>, steps: seq<Step<R>>)
    requires GoodHash(hash) && a != b
    ensures IsRun(hash, states, steps)
    ensures states[|steps|] == State(hash(a), Some(b), multiset{}, multiset{})
  {
    var s0: State<R> := State("", None, multiset{}, multiset{});
    var s1 := s0.(queued := s0.queued + multiset{a});
    var s2 := s1.(queued := s1.queued + multiset{b});
    var s3 := s2.(queued := s2.queued - multiset{a}, repo := Some(a), written := s2.written + multiset{a});
    var s4 := s3.(queued := s3.queued - multiset{b}, repo := Some(b), written := s3.written + multiset{b});
    var s5 := s4.(written := s4.written - multiset{b}, version := hash(b));
    var s6 := s5.(written := s5.written - multiset{a}, version := hash(a));
    states := [s0, s1, s2, s3, s4, s5, s6];
    steps := [Sync(a), Sync(b), Write(a), Write(b), Commit(b), Commit(a)];
    assert Takes(hash, s0, Sync(a), s1);
    assert Takes(hash, s1, Sync(b), s2);
    assert Takes(hash, s2, Write(a), s3);
    assert Takes(hash, s3, Write(b), s4);
    assert Takes(hash, s4, Commit(b), s5);
    assert Takes(hash, s5, Commit(a), s6);
    assert s6 == State(hash(a), Some(b), multiset{}, multiset{});
  }
}

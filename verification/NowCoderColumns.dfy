/** Synthesised columns for a NowCoder contest whose problem list cannot be fetched: the submitted
    problems first, then lettered fillers up to the announced number of problems.

    The filler loop retries an already used key without changing anything, so it may run forever.
    Its iteration is a function here, which lets termination itself be stated and characterised. */
module NowCoderColumns {
  import opened Model
  import opened Text
  import opened ContestProblems

  function FillerKey(contestId: string, n: nat): string {
    "__nowcoder_" + contestId + "_" + Letter(n)
  }

  /** One pass through the filler loop, on the list of keys placed so far. */
  function FillStep(contestId: string, total: int, keys: seq<string>): seq<string> {
    if |keys| >= total || FillerKey(contestId, |keys|) in keys then keys else keys + [FillerKey(contestId, |keys|)]
  }

  function Passes(contestId: string, total: int, keys: seq<string>, n: nat): seq<string> {
    if n == 0 then keys else FillStep(contestId, total, Passes(contestId, total, keys, n - 1))
  }

  /** Some number of passes reaches the announced count. */
  ghost predicate Finishes(contestId: string, total: int, keys: seq<string>) {
    exists n: nat :: |Passes(contestId, total, keys, n)| >= total
  }

  function Fillers(contestId: string, from: nat, to: nat): (r: seq<string>)
    requires from <= to
    ensures |r| == to - from
  {
    seq(to - from, i requires 0 <= i < to - from => FillerKey(contestId, from + i))
  }

  /** The key wanted at position `n` is taken: by a submitted problem, or by the filler 26 places earlier. */
  predicate Blocked(contestId: string, keys: seq<string>, n: nat) {
    FillerKey(contestId, n) in keys || n - |keys| >= 26
  }

  lemma FillerKeysRepeat(contestId: string, m: nat, n: nat)
    requires m < n
    ensures n < m + 26 ==> FillerKey(contestId, m) != FillerKey(contestId, n)
    ensures n == m + 26 ==> FillerKey(contestId, m) == FillerKey(contestId, n)
  {
    var k := |"__nowcoder_" + contestId + "_"|;
    assert FillerKey(contestId, m)[k] == Letter(m)[0] && FillerKey(contestId, n)[k] == Letter(n)[0];
  }

  lemma BlockedMeansTaken(contestId: string, keys: seq<string>, n: nat)
    requires |keys| <= n
    ensures FillerKey(contestId, n) in keys + Fillers(contestId, |keys|, n) <==> Blocked(contestId, keys, n)
  {
    var fillers := Fillers(contestId, |keys|, n);
    if n - |keys| >= 26 {
      assert fillers[n - |keys| - 26] == FillerKey(contestId, n - 26);
      FillerKeysRepeat(contestId, n - 26, n);
    } else {
      forall i | 0 <= i < |fillers|
        ensures fillers[i] != FillerKey(contestId, n)
      {
        FillerKeysRepeat(contestId, |keys| + i, n);
      }
    }
  }

  lemma {:induction false} PassesPlaceFillers(contestId: string, total: int, keys: seq<string>, n: nat)
    requires |keys| <= n <= total
    requires forall m :: |keys| <= m < n ==> !Blocked(contestId, keys, m)
    ensures Passes(contestId, total, keys, n - |keys|) == keys + Fillers(contestId, |keys|, n)
    decreases n
  {
    if n > |keys| {
      PassesPlaceFillers(contestId, total, keys, n - 1);
      BlockedMeansTaken(contestId, keys, n - 1);
      assert Fillers(contestId, |keys|, n) == Fillers(contestId, |keys|, n - 1) + [FillerKey(contestId, n - 1)];
    }
  }

  /** A blocked position is never passed, however long the loop runs. */
  lemma {:induction false} NeverPassesBlocked(contestId: string, total: int, keys: seq<string>, n: nat, passes: nat)
    requires |keys| <= n < total && Blocked(contestId, keys, n)
    requires forall m :: |keys| <= m < n ==> !Blocked(contestId, keys, m)
    ensures |Passes(contestId, total, keys, passes)| <= n
    ensures passes >= n - |keys| ==> Passes(contestId, total, keys, passes) == keys + Fillers(contestId, |keys|, n)
    decreases passes
  {
    if passes <= n - |keys| {
      PassesPlaceFillers(contestId, total, keys, |keys| + passes);
    } else {
      NeverPassesBlocked(contestId, total, keys, n, passes - 1);
      BlockedMeansTaken(contestId, keys, n);
    }
  }

  /** The loop ends exactly when no filler position is blocked: at most 26 fillers are needed and no
      submitted problem is named like one of them. */
  lemma FinishesExactly(contestId: string, total: int, keys: seq<string>)
    requires |keys| <= total
    ensures Finishes(contestId, total, keys) <==>
            total - |keys| <= 26 && forall n :: |keys| <= n < total ==> FillerKey(contestId, n) !in keys
  {
    if forall n :: |keys| <= n < total ==> !Blocked(contestId, keys, n) {
      PassesPlaceFillers(contestId, total, keys, total);
      assert |Passes(contestId, total, keys, total - |keys|)| >= total;
      assert total > |keys| ==> !Blocked(contestId, keys, total - 1);
      forall n | |keys| <= n < total
        ensures FillerKey(contestId, n) !in keys
      {
        assert !Blocked(contestId, keys, n);
      }
    } else {
      var n := FirstBlocked(contestId, total, keys);
      forall passes: nat
        ensures |Passes(contestId, total, keys, passes)| < total
      {
        NeverPassesBlocked(contestId, total, keys, n, passes);
      }
      assert Blocked(contestId, keys, n);
    }
  }

  /** Two contests whose page is never built: 27 problems announced and nothing submitted, and a problem that
      was submitted under the name of a filler. */
  lemma RunsForever(contestId: string)
    ensures !Finishes(contestId, 27, []) && !Finishes(contestId, 2, [FillerKey(contestId, 1)])
  {
    FinishesExactly(contestId, 27, []);
    FinishesExactly(contestId, 2, [FillerKey(contestId, 1)]);
    assert FillerKey(contestId, 1) in [FillerKey(contestId, 1)];
  }

  lemma FirstBlocked(contestId: string, total: int, keys: seq<string>) returns (n: nat)
    requires exists m :: |keys| <= m < total && Blocked(contestId, keys, m)
    ensures |keys| <= n < total && Blocked(contestId, keys, n)
    ensures forall m :: |keys| <= m < n ==> !Blocked(contestId, keys, m)
  {
    n := |keys|;
    while !Blocked(contestId, keys, n)
      invariant |keys| <= n < total
      invariant forall m :: |keys| <= m < n ==> !Blocked(contestId, keys, m)
      decreases total - n
    {
      n := n + 1;
    }
  }

  // ---------------------------------------------------------------- the whole operation

  /** The names under which problems were submitted, each once, in order of first use. */
  function Names(subs: seq<SubmitLog>): seq<string> {
    if subs == [] then [] else
      var before, key := Names(subs[..|subs| - 1]), TrimSpace(subs[|subs| - 1].problem);
      if key == "" || key in before then before else before + [key]
  }

  /** The first loop stops as soon as it has `total` of them. */
  function SubmittedKeys(total: nat, subs: seq<SubmitLog>): (r: seq<string>)
    ensures |r| <= total
  {
    if |Names(subs)| <= total then Names(subs) else Names(subs)[..total]
  }

  lemma {:induction false} NamesDistinct(subs: seq<SubmitLog>)
    ensures Distinct(Names(subs))
  {
    if subs != [] {
      NamesDistinct(subs[..|subs| - 1]);
    }
  }

  lemma {:induction false} NamesGrow(subs: seq<SubmitLog>, i: nat)
    requires i <= |subs|
    ensures Names(subs[..i]) <= Names(subs)
  {
    if i == |subs| {
      assert subs[..i] == subs;
    } else {
      NamesGrow(subs[..|subs| - 1], i);
      assert subs[..|subs| - 1][..i] == subs[..i];
    }
  }

  // ---------------------------------------------------------------- columns

  /** nowCoderProblemAliases. */
  function Aliases(cs: Casing, rawIndex: string, rawTitle: string): seq<string> {
    var index, title := TrimSpace(rawIndex), TrimSpace(rawTitle);
    (if index != "" then [index, cs.upper(index)] else []) +
    (if title != "" then
       [title] + if index != "" then [index + " " + title, cs.upper(index) + " " + title] else []
     else [])
  }

  /** The column of a submitted problem at position `n`; `site` is a NowCoder contest. */
  function SubmittedColumn(site: Site, key: string, n: nat): ProblemMeta {
    var index := DeriveIndex(site, key, n);
    ProblemMeta(key, index, key, site.url(index, key), Aliases(site.cs, index, key))
  }

  function FillerColumn(site: Site, n: nat): ProblemMeta {
    var key := FillerKey(site.contestId, n);
    ProblemMeta(key, Letter(n), Letter(n), site.url(Letter(n), key), [Letter(n)])
  }

  /** The columns for these keys, the first `submitted` of which come from submissions. */
  function Columns(site: Site, keys: seq<string>, submitted: nat): (r: seq<ProblemMeta>)
    ensures |r| == |keys|
  {
    seq(|keys|, i requires 0 <= i < |keys| => if i < submitted then SubmittedColumn(site, keys[i], i) else FillerColumn(site, i))
  }

  /** The columns, field by field. */
  lemma ColumnFields(site: Site, key: string, n: nat)
    ensures var f := FillerColumn(site, n);
            && |f.index| == 1 && f.index[0] as int == 'A' as int + n % 26
            && f.name == f.index && f.key == "__nowcoder_" + site.contestId + "_" + f.index && f.aliases == [f.index]
    ensures var c := SubmittedColumn(site, key, n);
            && c.key == key && c.name == key && c.index == DeriveIndex(site, key, n)
            && (TrimSpace(key) != "" ==> TrimSpace(key) in c.aliases)
            && (TrimSpace(c.index) != "" ==> TrimSpace(c.index) in c.aliases && site.cs.upper(TrimSpace(c.index)) in c.aliases)
            && (TrimSpace(key) != "" && TrimSpace(c.index) != "" ==>
                  TrimSpace(c.index) + " " + TrimSpace(key) in c.aliases &&
                  site.cs.upper(TrimSpace(c.index)) + " " + TrimSpace(key) in c.aliases)
  {
    var index, title := TrimSpace(DeriveIndex(site, key, n)), TrimSpace(key);
    var aliases := Aliases(site.cs, DeriveIndex(site, key, n), key);
    if index != "" {
      assert aliases[0] == index && aliases[1] == site.cs.upper(index);
      if title != "" {
        assert aliases[2] == title && aliases[3] == index + " " + title && aliases[4] == site.cs.upper(index) + " " + title;
      }
    } else if title != "" {
      assert aliases[0] == title;
    }
  }

  lemma OneMoreSubmitted(site: Site, keys: seq<string>, key: string)
    ensures Columns(site, keys + [key], |keys| + 1) == Columns(site, keys, |keys|) + [SubmittedColumn(site, key, |keys|)]
  {
  }

  lemma NextName(subs: seq<SubmitLog>, i: nat, key: string)
    requires i < |subs| && key == TrimSpace(subs[i].problem)
    ensures Names(subs[..i + 1]) == Names(subs[..i]) + if key == "" || key in Names(subs[..i]) then [] else [key]
  {
    assert subs[..i + 1][..i] == subs[..i];
  }

  /** The loop's variables after the first `i` submissions. */
  ghost predicate Taken(site: Site, subs: seq<SubmitLog>, i: nat, seen: seq<string>, columns: seq<ProblemMeta>)
    requires i <= |subs|
  {
    seen == Names(subs[..i]) && columns == Columns(site, seen, |seen|)
  }

  lemma TakenNext(site: Site, subs: seq<SubmitLog>, i: nat, seen: seq<string>, columns: seq<ProblemMeta>, key: string)
    requires i < |subs| && key == TrimSpace(subs[i].problem) && Taken(site, subs, i, seen, columns)
    ensures if key == "" || key in seen then Taken(site, subs, i + 1, seen, columns)
            else Taken(site, subs, i + 1, seen + [key], columns + [SubmittedColumn(site, key, |columns|)])
  {
    NextName(subs, i, key);
    OneMoreSubmitted(site, seen, key);
  }

  method TakeSubmitted(site: Site, total: nat, subs: seq<SubmitLog>) returns (seen: seq<string>, columns: seq<ProblemMeta>)
    requires total > 0
    ensures seen == SubmittedKeys(total, subs) && columns == Columns(site, seen, |seen|)
  {
    seen, columns := [], [];
    for i := 0 to |subs|
      invariant Taken(site, subs, i, seen, columns) && |seen| == |columns| < total
    {
      var key := TrimSpace(subs[i].problem);
      TakenNext(site, subs, i, seen, columns, key);
      if key == "" || key in seen {
        continue;
      }
      columns := columns + [SubmittedColumn(site, key, |columns|)];
      seen := seen + [key];
      if |columns| >= total {
        NamesGrow(subs, i + 1);
        return;
      }
    }
    assert subs[..|subs|] == subs;
  }

  /** The filler loop. None stands for a loop that never ends: every further pass would leave the columns
      as they are. */
  method FillUp(site: Site, total: nat, submitted: seq<string>, columns: seq<ProblemMeta>) returns (r: Option<seq<ProblemMeta>>)
    requires |submitted| <= total && columns == Columns(site, submitted, |submitted|)
    ensures r.Some? <==> Finishes(site.contestId, total, submitted)
    ensures r.Some? ==> r.value == Columns(site, submitted + Fillers(site.contestId, |submitted|, total), |submitted|)
  {
    var seen, result := submitted, columns;
    ghost var start := |submitted|;
    while |result| < total
      invariant start <= |seen| == |result| <= total
      invariant forall n :: start <= n < |seen| ==> !Blocked(site.contestId, submitted, n)
      invariant seen == submitted + Fillers(site.contestId, start, |seen|)
      invariant result == Columns(site, seen, start)
    {
      BlockedMeansTaken(site.contestId, submitted, |seen|);
      var key := FillerKey(site.contestId, |result|);
      if key in seen {
        FinishesExactly(site.contestId, total, submitted);
        return None;
      }
      assert Fillers(site.contestId, start, |seen| + 1) == Fillers(site.contestId, start, |seen|) + [key];
      result := result + [FillerColumn(site, |result|)];
      seen := seen + [key];
    }
    PassesPlaceFillers(site.contestId, total, submitted, total);
    assert |Passes(site.contestId, total, submitted, total - start)| >= total;
    r := Some(result);
  }

  /** synthesizeNowCoderProblems. */
  method SynthesizeNowCoderProblems(site: Site, total: int, subs: seq<SubmitLog>) returns (r: Option<seq<ProblemMeta>>)
    ensures total <= 0 ==> r == Some([])
    ensures total > 0 ==>
      var submitted := SubmittedKeys(total, subs);
      && (r.Some? <==> Finishes(site.contestId, total, submitted))
      && (r.Some? ==> |r.value| == total && DistinctKeys(r.value) &&
                      r.value == Columns(site, submitted + Fillers(site.contestId, |submitted|, total), |submitted|))
  {
    if total <= 0 {
      return Some([]);
    }
    var submitted, columns := TakeSubmitted(site, total, subs);
    r := FillUp(site, total, submitted, columns);
    NamesDistinct(subs);
    if r.Some? {
      FinishesExactly(site.contestId, total, submitted);
      ColumnsDistinct(site.contestId, total, submitted);
      KeysOfColumns(site, submitted + Fillers(site.contestId, |submitted|, total), |submitted|, submitted);
    }
  }

  lemma KeysOfColumns(site: Site, keys: seq<string>, n: nat, submitted: seq<string>)
    requires n == |submitted| <= |keys| && keys == submitted + Fillers(site.contestId, n, |keys|)
    ensures forall i :: 0 <= i < |keys| ==> Columns(site, keys, n)[i].key == keys[i]
  {
  }

  /** Normalisation keeps synthesised columns: they come first, in their order, and what else was submitted
      (problems beyond the announced number, or nameless submissions) follows. */
  lemma SynthesizedComeFirst(site: Site, total: nat, subs: seq<SubmitLog>, meta: seq<ProblemMeta>)
    requires total > 0 && |meta| == total && DistinctKeys(meta)
    requires meta == Columns(site, SubmittedKeys(total, subs) + Fillers(site.contestId, |SubmittedKeys(total, subs)|, total),
                             |SubmittedKeys(total, subs)|)
    ensures var columns := ContestColumns(site, meta, subs);
            |columns| >= total && forall i :: 0 <= i < total ==> columns[i].key == meta[i].key
  {
    var submitted := SubmittedKeys(total, subs);
    NamesProper(subs);
    KeysOfColumns(site, submitted + Fillers(site.contestId, |submitted|, total), |submitted|, submitted);
    forall i | 0 <= i < total
      ensures Trimmed(meta[i].key) && meta[i].key != ""
    {
      if i < |submitted| {
        assert meta[i].key == Names(subs)[i];
      } else {
        assert meta[i].key == FillerKey(site.contestId, i);
      }
    }
    ProperMetaComesFirst(site, meta, subs);
  }

  lemma {:induction false} NamesProper(subs: seq<SubmitLog>)
    ensures forall i :: 0 <= i < |Names(subs)| ==> Trimmed(Names(subs)[i]) && Names(subs)[i] != ""
  {
    if subs != [] {
      NamesProper(subs[..|subs| - 1]);
      TrimSpaceTrims(subs[|subs| - 1].problem);
    }
  }

  lemma ColumnsDistinct(contestId: string, total: nat, submitted: seq<string>)
    requires Distinct(submitted) && |submitted| <= total <= |submitted| + 26
    requires forall n :: |submitted| <= n < total ==> FillerKey(contestId, n) !in submitted
    ensures Distinct(submitted + Fillers(contestId, |submitted|, total))
  {
    var fillers := Fillers(contestId, |submitted|, total);
    forall i, j | 0 <= i < j < |fillers|
      ensures fillers[i] != fillers[j]
    {
      FillerKeysRepeat(contestId, |submitted| + i, |submitted| + j);
    }
  }
}

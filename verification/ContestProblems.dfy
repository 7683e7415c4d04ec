/** The problem columns of a contest: how they are collected from the contest metadata and
    from the submissions, and how a submission's problem text is mapped back to a column. */
module ContestProblems {
  import opened Model
  import opened Sorting
  import opened Text

  datatype ProblemMeta = ProblemMeta(key: string, index: string, name: string, url: string, aliases: seq<string>)

  /** What stays fixed while the columns of one contest are built. Problem links do not
      influence anything else, so the link builder is a parameter. */
  datatype Site = Site(cs: Casing, platform: string, contestId: string, url: (string, string) -> string)

  // ---------------------------------------------------------------- index letters

  predicate IsPlatform(site: Site, target: string) {
    EqualFold(site.cs, TrimSpace(site.platform), TrimSpace(target))
  }

  predicate AllLetters(s: string) {
    s != [] && forall i :: 0 <= i < |s| ==> 'A' <= s[i] <= 'Z' || 'a' <= s[i] <= 'z'
  }

  function Letter(n: nat): string {
    [(65 + n % 26) as char]
  }

  function DeriveIndex(site: Site, rawProblem: string, fallback: nat): string {
    var problem := TrimSpace(rawProblem);
    var contest := TrimSpace(site.contestId);
    var underscored, dashed := contest + "_", contest + "-";
    if IsPlatform(site, "AtCoder") && contest != "" && HasPrefix(problem, underscored) &&
       AllLetters(problem[|underscored|..]) then
      site.cs.upper(problem[|underscored|..])
    else if IsPlatform(site, "CodeForces") && contest != "" && HasPrefix(problem, dashed) &&
            TrimSpace(problem[|dashed|..]) != "" then
      FirstField(TrimSpace(problem[|dashed|..]))
    else if 0 < |FirstField(problem)| <= 4 then
      FirstField(problem)
    else
      Letter(fallback)
  }

  // ---------------------------------------------------------------- collecting columns

  function SubmissionKey(s: SubmitLog): string {
    if TrimSpace(s.problem) != "" then TrimSpace(s.problem) else TrimSpace(s.submitId)
  }

  /** A place where a problem is named: a metadata entry, or (without entry) a submission. */
  datatype Mention = Mention(key: string, entry: Option<ProblemMeta>)

  function MetaMention(m: ProblemMeta): Mention {
    Mention(TrimSpace(m.key), Some(m))
  }

  function SubmissionMention(s: SubmitLog): Mention {
    Mention(SubmissionKey(s), None)
  }

  function Mentions(meta: seq<ProblemMeta>, subs: seq<SubmitLog>): (r: seq<Mention>)
    ensures |r| == |meta| + |subs|
  {
    seq(|meta|, i requires 0 <= i < |meta| => MetaMention(meta[i])) +
    seq(|subs|, i requires 0 <= i < |subs| => SubmissionMention(subs[i]))
  }

  predicate Mentioned(ms: seq<Mention>, key: string) {
    exists i :: 0 <= i < |ms| && ms[i].key == key
  }

  /** The first mention of every non-blank key, in order. */
  function FirstMentions(ms: seq<Mention>): seq<Mention> {
    if ms == [] then [] else
      var before, m := FirstMentions(ms[..|ms| - 1]), ms[|ms| - 1];
      if m.key == "" || Mentioned(before, m.key) then before else before + [m]
  }

  /** No key is mentioned twice. */
  ghost predicate OncePerKey(ms: seq<Mention>) {
    forall i, j :: 0 <= i < j < |ms| ==> ms[i].key != ms[j].key
  }

  lemma {:induction false} FirstMentionsPerKey(ms: seq<Mention>)
    ensures OncePerKey(FirstMentions(ms))
    ensures forall k :: Mentioned(FirstMentions(ms), k) <==> k != "" && Mentioned(ms, k)
    ensures forall m :: m in FirstMentions(ms) ==> m in ms
  {
    if ms != [] {
      var before, m := ms[..|ms| - 1], ms[|ms| - 1];
      FirstMentionsPerKey(before);
      assert ms == before + [m];
      NewKeyOnce(FirstMentions(before), m);
      forall k
        ensures Mentioned(FirstMentions(ms), k) <==> k != "" && Mentioned(ms, k)
      {
        MentionedAppend(before, m, k);
        MentionedAppend(FirstMentions(before), m, k);
      }
    }
  }

  lemma NewKeyOnce(ms: seq<Mention>, m: Mention)
    requires OncePerKey(ms)
    ensures !Mentioned(ms, m.key) ==> OncePerKey(ms + [m])
  {
  }

  lemma MentionedAppend(ms: seq<Mention>, m: Mention, k: string)
    ensures Mentioned(ms + [m], k) <==> Mentioned(ms, k) || m.key == k
  {
    assert (ms + [m])[|ms|] == m;
    assert forall i :: 0 <= i < |ms| ==> (ms + [m])[i] == ms[i];
  }

  /** The column for mention `m`, placed at position `n`. */
  function ColumnOf(site: Site, m: Mention, n: nat): (c: ProblemMeta)
    ensures c.key == m.key
  {
    match m.entry
    case None =>
      var index := DeriveIndex(site, m.key, n);
      ProblemMeta(m.key, index, m.key, site.url(index, m.key), [])
    case Some(e) =>
      var index := if e.index == "" then DeriveIndex(site, m.key, n) else e.index;
      var name := if e.name == "" then m.key else e.name;
      var url := if e.url == "" then site.url(index, m.key) else e.url;
      ProblemMeta(m.key, index, name, url, e.aliases + [index, name])
  }

  function ColumnsOf(site: Site, firsts: seq<Mention>): (r: seq<ProblemMeta>)
    ensures |r| == |firsts|
  {
    seq(|firsts|, i requires 0 <= i < |firsts| => ColumnOf(site, firsts[i], i))
  }

  /** `seen` and `columns` are what the mentions so far call for. */
  ghost predicate Collected(site: Site, ms: seq<Mention>, seen: set<string>, columns: seq<ProblemMeta>) {
    && columns == ColumnsOf(site, FirstMentions(ms))
    && forall k :: k in seen <==> Mentioned(FirstMentions(ms), k)
  }

  lemma NextMention(ms: seq<Mention>, m: Mention)
    ensures FirstMentions(ms + [m]) ==
            FirstMentions(ms) + if m.key == "" || Mentioned(FirstMentions(ms), m.key) then [] else [m]
  {
    assert (ms + [m])[..|ms|] == ms;
  }

  lemma NextColumn(site: Site, firsts: seq<Mention>, m: Mention)
    ensures ColumnsOf(site, firsts + [m]) == ColumnsOf(site, firsts) + [ColumnOf(site, m, |firsts|)]
  {
  }

  lemma CollectedGrow(site: Site, ms: seq<Mention>, m: Mention, seen: set<string>, columns: seq<ProblemMeta>)
    requires Collected(site, ms, seen, columns) && m.key != "" && m.key !in seen
    ensures Collected(site, ms + [m], seen + {m.key}, columns + [ColumnOf(site, m, |columns|)])
  {
    NextMention(ms, m);
    NextColumn(site, FirstMentions(ms), m);
    forall k
      ensures k in seen + {m.key} <==> Mentioned(FirstMentions(ms) + [m], k)
    {
      MentionedAppend(FirstMentions(ms), m, k);
    }
  }

  /** The body shared by the two collecting loops. */
  method Collect(site: Site, ghost ms: seq<Mention>, m: Mention, seen: set<string>, columns: seq<ProblemMeta>)
    returns (seen': set<string>, columns': seq<ProblemMeta>)
    requires Collected(site, ms, seen, columns)
    ensures Collected(site, ms + [m], seen', columns')
  {
    if m.key == "" || m.key in seen {
      assert (ms + [m])[..|ms|] == ms;
      return seen, columns;
    }
    CollectedGrow(site, ms, m, seen, columns);
    return seen + {m.key}, columns + [ColumnOf(site, m, |columns|)];
  }

  lemma MentionsGrow(meta: seq<ProblemMeta>, subs: seq<SubmitLog>, i: nat)
    requires i < |subs|
    ensures Mentions(meta, subs[..i + 1]) == Mentions(meta, subs[..i]) + [SubmissionMention(subs[i])]
  {
  }

  method CollectMetadata(site: Site, meta: seq<ProblemMeta>) returns (seen: set<string>, columns: seq<ProblemMeta>)
    ensures Collected(site, Mentions(meta, []), seen, columns)
  {
    ghost var ms := Mentions(meta, []);
    seen, columns := {}, [];
    for i := 0 to |meta|
      invariant Collected(site, ms[..i], seen, columns)
    {
      assert ms[..i + 1] == ms[..i] + [MetaMention(meta[i])];
      seen, columns := Collect(site, ms[..i], MetaMention(meta[i]), seen, columns);
    }
    assert ms[..|meta|] == ms;
  }

  /** Metadata entries first, then whatever else was submitted. */
  method CollectColumns(site: Site, meta: seq<ProblemMeta>, subs: seq<SubmitLog>) returns (columns: seq<ProblemMeta>)
    ensures columns == ColumnsOf(site, FirstMentions(Mentions(meta, subs)))
  {
    var seen;
    seen, columns := CollectMetadata(site, meta);
    assert subs[..0] == [] && subs[..|subs|] == subs;
    for i := 0 to |subs|
      invariant Collected(site, Mentions(meta, subs[..i]), seen, columns)
    {
      MentionsGrow(meta, subs, i);
      seen, columns := Collect(site, Mentions(meta, subs[..i]), SubmissionMention(subs[i]), seen, columns);
    }
  }

  // ---------------------------------------------------------------- ordering columns

  /** naturalProblemOrder: by index when both have one, else (or on equal indexes) by key. */
  predicate NaturalLess(cs: Casing, a: ProblemMeta, b: ProblemMeta) {
    var ai, bi := cs.upper(TrimSpace(a.index)), cs.upper(TrimSpace(b.index));
    if ai != "" && bi != "" && ai != bi then LexLess(ai, bi) else LexLess(a.key, b.key)
  }

  /** The columns of a contest: metadata keeps its order, columns taken from submissions alone are sorted. */
  method NormalizeContestProblems(site: Site, meta: seq<ProblemMeta>, subs: seq<SubmitLog>) returns (columns: seq<ProblemMeta>)
    ensures columns == ContestColumns(site, meta, subs)
  {
    columns := CollectColumns(site, meta, subs);
    if |meta| == 0 {
      columns := StableSort((a: ProblemMeta, b: ProblemMeta) => NaturalLess(site.cs, a, b), columns);
    }
  }

  function ContestColumns(site: Site, meta: seq<ProblemMeta>, subs: seq<SubmitLog>): seq<ProblemMeta> {
    var columns := ColumnsOf(site, FirstMentions(Mentions(meta, subs)));
    if meta == [] then StableSort((a: ProblemMeta, b: ProblemMeta) => NaturalLess(site.cs, a, b), columns) else columns
  }

  ghost predicate DistinctKeys(columns: seq<ProblemMeta>) {
    forall i, j :: 0 <= i < j < |columns| ==> columns[i].key != columns[j].key
  }

  ghost predicate HasColumn(columns: seq<ProblemMeta>, key: string) {
    exists i :: 0 <= i < |columns| && columns[i].key == key
  }

  ghost predicate ProperKeys(columns: seq<ProblemMeta>) {
    forall i :: 0 <= i < |columns| ==> Trimmed(columns[i].key) && columns[i].key != ""
  }

  /** Arranging columns differently changes nothing about their keys. */
  lemma ArrangedKeys(a: seq<ProblemMeta>, b: seq<ProblemMeta>)
    requires multiset(a) == multiset(b) && DistinctKeys(a)
    ensures DistinctKeys(b)
    ensures forall k :: HasColumn(a, k) <==> HasColumn(b, k)
  {
    SameMembers(a, b);
    PermutedDistinct(a, b);
    assert forall i :: 0 <= i < |b| ==> b[i] in a;
    assert forall i :: 0 <= i < |a| ==> a[i] in b;
  }

  lemma MetaMentionTrimmed(m: ProblemMeta)
    ensures Trimmed(MetaMention(m).key)
  {
    TrimSpaceTrims(m.key);
  }

  lemma SubmissionMentionTrimmed(s: SubmitLog)
    ensures Trimmed(SubmissionMention(s).key)
  {
    TrimSpaceTrims(s.problem);
    TrimSpaceTrims(s.submitId);
  }

  lemma ProperMentions(meta: seq<ProblemMeta>, subs: seq<SubmitLog>)
    ensures forall i :: 0 <= i < |meta| + |subs| ==> Trimmed(Mentions(meta, subs)[i].key)
  {
    var ms := Mentions(meta, subs);
    forall i | 0 <= i < |ms|
      ensures Trimmed(ms[i].key)
    {
      if i < |meta| {
        MetaMentionTrimmed(meta[i]);
        assert ms[i] == MetaMention(meta[i]);
      } else {
        SubmissionMentionTrimmed(subs[i - |meta|]);
        assert ms[i] == SubmissionMention(subs[i - |meta|]);
      }
    }
  }

  lemma CollectedKeys(site: Site, ms: seq<Mention>)
    ensures DistinctKeys(ColumnsOf(site, FirstMentions(ms)))
    ensures forall k :: HasColumn(ColumnsOf(site, FirstMentions(ms)), k) <==> k != "" && Mentioned(ms, k)
  {
    var firsts := FirstMentions(ms);
    FirstMentionsPerKey(ms);
    forall k
      ensures HasColumn(ColumnsOf(site, firsts), k) <==> Mentioned(firsts, k)
    {
      if i :| 0 <= i < |firsts| && firsts[i].key == k {
        assert ColumnsOf(site, firsts)[i].key == k;
      }
    }
  }

  /** The columns have distinct, trimmed, non-blank keys: exactly the ones mentioned somewhere. */
  lemma ColumnKeys(site: Site, meta: seq<ProblemMeta>, subs: seq<SubmitLog>)
    ensures DistinctKeys(ContestColumns(site, meta, subs)) && ProperKeys(ContestColumns(site, meta, subs))
    ensures forall k :: HasColumn(ContestColumns(site, meta, subs), k) <==> k != "" && Mentioned(Mentions(meta, subs), k)
  {
    var ms := Mentions(meta, subs);
    var collected, columns := ColumnsOf(site, FirstMentions(ms)), ContestColumns(site, meta, subs);
    SortPermutes((a: ProblemMeta, b: ProblemMeta) => NaturalLess(site.cs, a, b), collected);
    CollectedKeys(site, ms);
    ArrangedKeys(collected, columns);
    ProperMentions(meta, subs);
    forall i | 0 <= i < |columns|
      ensures Trimmed(columns[i].key) && columns[i].key != ""
    {
      assert HasColumn(columns, columns[i].key);
    }
  }

  lemma {:induction false} LexTotal(a: string, b: string)
    ensures !LexLess(a, a)
    ensures a != b ==> LexLess(a, b) || LexLess(b, a)
  {
    if a != [] {
      LexTotal(a[1..], if b == [] then [] else b[1..]);
      assert b != [] && a[0] == b[0] && a[1..] == b[1..] ==> a == [a[0]] + a[1..] == b;
    }
  }

  lemma {:induction false} LexTransitive(a: string, b: string, c: string)
    requires LexLess(a, b) && LexLess(b, c)
    ensures LexLess(a, c)
  {
    if a != [] && a[0] == b[0] && b[0] == c[0] {
      LexTransitive(a[1..], b[1..], c[1..]);
    }
  }

  ghost predicate Indexed(cs: Casing, columns: seq<ProblemMeta>) {
    forall c :: c in columns ==> cs.upper(TrimSpace(c.index)) != ""
  }

  lemma NaturalOrderIsTotal(cs: Casing, columns: seq<ProblemMeta>)
    requires DistinctKeys(columns) && Indexed(cs, columns)
    ensures TotalOrderOn((a: ProblemMeta, b: ProblemMeta) => NaturalLess(cs, a, b), columns)
  {
    forall a, b | a in columns && b in columns
      ensures !NaturalLess(cs, a, a)
      ensures a != b ==> NaturalLess(cs, a, b) || NaturalLess(cs, b, a)
    {
      LexTotal(a.key, b.key);
      LexTotal(cs.upper(TrimSpace(a.index)), cs.upper(TrimSpace(b.index)));
    }
    forall a, b, c | a in columns && b in columns && c in columns && NaturalLess(cs, a, b) && NaturalLess(cs, b, c)
      ensures NaturalLess(cs, a, c)
    {
      NaturalTransitive(cs, a, b, c);
    }
  }

  lemma NaturalTransitive(cs: Casing, a: ProblemMeta, b: ProblemMeta, c: ProblemMeta)
    requires NaturalLess(cs, a, b) && NaturalLess(cs, b, c)
    requires cs.upper(TrimSpace(a.index)) != "" && cs.upper(TrimSpace(b.index)) != "" && cs.upper(TrimSpace(c.index)) != ""
    ensures NaturalLess(cs, a, c)
  {
    var x, y, z := cs.upper(TrimSpace(a.index)), cs.upper(TrimSpace(b.index)), cs.upper(TrimSpace(c.index));
    LexTotal(x, y);
    if x == y == z {
      LexTransitive(a.key, b.key, c.key);
    } else if x != y && y != z {
      LexTransitive(x, y, z);
    }
  }

  /** The case tables do not turn text into white space. */
  ghost predicate KeepsText(cs: Casing) {
    forall s :: TrimSpace(s) != "" ==> TrimSpace(cs.upper(s)) != ""
  }

  lemma {:induction false} WordHasNoSpace(s: string)
    ensures forall i :: 0 <= i < |Word(s)| ==> !IsSpace(Word(s)[i])
    ensures s != "" && !IsSpace(s[0]) ==> Word(s) != ""
  {
    if s != "" && !IsSpace(s[0]) {
      WordHasNoSpace(s[1..]);
    }
  }

  lemma FirstFieldNotBlank(s: string)
    ensures Trimmed(FirstField(s)) && TrimSpace(FirstField(s)) == FirstField(s)
    ensures TrimSpace(s) != "" ==> FirstField(TrimSpace(s)) != ""
  {
    WordHasNoSpace(s[SkipLeft(s, 0)..]);
    TrimSpaceTrims(FirstField(s));
    TrimSpaceTrims(s);
    var t := TrimSpace(s);
    assert t != "" ==> SkipLeft(t, 0) == 0 && t[0..] == t;
    WordHasNoSpace(t);
  }

  lemma LettersNotBlank(s: string)
    requires AllLetters(s)
    ensures TrimSpace(s) != ""
  {
    TrimSpaceTrims(s);
  }

  /** A derived index is never blank. */
  lemma DerivedIndexNotBlank(site: Site, raw: string, n: nat)
    requires KeepsText(site.cs)
    ensures TrimSpace(DeriveIndex(site, raw, n)) != ""
  {
    var problem, contest := TrimSpace(raw), TrimSpace(site.contestId);
    var underscored, dashed := contest + "_", contest + "-";
    if IsPlatform(site, "AtCoder") && contest != "" && HasPrefix(problem, underscored) && AllLetters(problem[|underscored|..]) {
      LettersNotBlank(problem[|underscored|..]);
    } else if IsPlatform(site, "CodeForces") && contest != "" && HasPrefix(problem, dashed) &&
              TrimSpace(problem[|dashed|..]) != "" {
      FirstFieldNotBlank(problem[|dashed|..]);
      FirstFieldNotBlank(TrimSpace(problem[|dashed|..]));
    } else if 0 < |FirstField(problem)| <= 4 {
      FirstFieldNotBlank(problem);
    } else {
      LettersNotBlank(Letter(n));
    }
  }

  lemma SubmittedColumnsIndexed(site: Site, subs: seq<SubmitLog>)
    requires KeepsText(site.cs)
    ensures Indexed(site.cs, ColumnsOf(site, FirstMentions(Mentions([], subs))))
  {
    var firsts := FirstMentions(Mentions([], subs));
    FirstMentionsPerKey(Mentions([], subs));
    forall i | 0 <= i < |firsts|
      ensures site.cs.upper(TrimSpace(ColumnOf(site, firsts[i], i).index)) != ""
    {
      assert firsts[i] in Mentions([], subs) && firsts[i].entry == None;
      DerivedIndexNotBlank(site, firsts[i].key, i);
      var index := ColumnOf(site, firsts[i], i).index;
      TrimSpaceTrims(index);
      TrimSpaceTrims(TrimSpace(index));
      assert TrimSpace("") == "";
    }
  }

  /** Columns taken from submissions alone come out in natural order, and in no other order they could. */
  lemma SubmittedColumnsOrdered(site: Site, subs: seq<SubmitLog>)
    requires KeepsText(site.cs)
    ensures Ordered((a: ProblemMeta, b: ProblemMeta) => NaturalLess(site.cs, a, b), ContestColumns(site, [], subs))
    ensures var columns := ContestColumns(site, [], subs);
            forall i, j :: 0 <= i < j < |columns| ==> ByIndexThenKey(site.cs, columns[i], columns[j])
  {
    var collected := ColumnsOf(site, FirstMentions(Mentions([], subs)));
    SubmittedColumnsIndexed(site, subs);
    CollectedKeys(site, Mentions([], subs));
    NaturalOrderIsTotal(site.cs, collected);
    SortOrders((a: ProblemMeta, b: ProblemMeta) => NaturalLess(site.cs, a, b), collected, collected);
    SortPermutes((a: ProblemMeta, b: ProblemMeta) => NaturalLess(site.cs, a, b), collected);
    var columns := ContestColumns(site, [], subs);
    SameMembers(columns, collected);
    forall i, j | 0 <= i < j < |columns|
      ensures ByIndexThenKey(site.cs, columns[i], columns[j])
    {
      assert columns[i] in collected && columns[j] in collected && NaturalLess(site.cs, columns[i], columns[j]);
      NaturalMeans(site.cs, columns[i], columns[j]);
    }
  }

  /** The smaller index in upper case comes first, among equal ones the smaller key. */
  ghost predicate ByIndexThenKey(cs: Casing, a: ProblemMeta, b: ProblemMeta) {
    var x, y := cs.upper(TrimSpace(a.index)), cs.upper(TrimSpace(b.index));
    TextBefore(x, y) || (x == y && TextBefore(a.key, b.key))
  }

  lemma NaturalMeans(cs: Casing, a: ProblemMeta, b: ProblemMeta)
    requires cs.upper(TrimSpace(a.index)) != "" && cs.upper(TrimSpace(b.index)) != ""
    ensures NaturalLess(cs, a, b) ==> ByIndexThenKey(cs, a, b)
  {
    LexLessExactly(cs.upper(TrimSpace(a.index)), cs.upper(TrimSpace(b.index)));
    LexLessExactly(a.key, b.key);
  }

  /** The column keeps what the entry says, and can be found under all of it. */
  ghost predicate Keeps(c: ProblemMeta, e: ProblemMeta) {
    && c.key == e.key
    && (e.index != "" ==> c.index == e.index)
    && (e.name != "" ==> c.name == e.name) && (e.name == "" ==> c.name == e.key)
    && (e.url != "" ==> c.url == e.url)
    && (forall a :: a in e.aliases ==> a in c.aliases)
  }

  /** Metadata with proper, distinct keys is kept as it is, in front of everything else. */
  lemma ProperMetaComesFirst(site: Site, meta: seq<ProblemMeta>, subs: seq<SubmitLog>)
    requires meta != [] && DistinctKeys(meta) && ProperKeys(meta)
    ensures |ContestColumns(site, meta, subs)| >= |meta|
    ensures forall i :: 0 <= i < |meta| ==> ContestColumns(site, meta, subs)[i] == ColumnOf(site, MetaMention(meta[i]), i)
    ensures forall i :: 0 <= i < |meta| ==> Keeps(ContestColumns(site, meta, subs)[i], meta[i])
  {
    var ms := Mentions(meta, subs);
    forall i | 0 <= i < |meta|
      ensures ms[i] == MetaMention(meta[i]) && ms[i].key == meta[i].key
    {
      TrimSpaceTrims(meta[i].key);
    }
    AllAreFirst(ms[..|meta|]);
    FirstMentionsGrow(ms, |meta|);
  }

  lemma {:induction false} AllAreFirst(ms: seq<Mention>)
    requires OncePerKey(ms) && forall i :: 0 <= i < |ms| ==> ms[i].key != ""
    ensures FirstMentions(ms) == ms
  {
    if ms != [] {
      var before, m := ms[..|ms| - 1], ms[|ms| - 1];
      assert ms == before + [m];
      AllAreFirst(before);
      NextMention(before, m);
      NotMentioned(before, m.key);
    }
  }

  lemma NotMentioned(ms: seq<Mention>, key: string)
    requires forall i :: 0 <= i < |ms| ==> ms[i].key != key
    ensures !Mentioned(ms, key)
  {
  }

  lemma {:induction false} FirstMentionsGrow(ms: seq<Mention>, n: nat)
    requires n <= |ms|
    ensures FirstMentions(ms[..n]) <= FirstMentions(ms)
  {
    if n == |ms| {
      assert ms[..n] == ms;
    } else {
      FirstMentionsGrow(ms[..|ms| - 1], n);
      assert ms[..|ms| - 1][..n] == ms[..n];
    }
  }

  // ---------------------------------------------------------------- Codeforces keys

  datatype CodeforcesProblem = CodeforcesProblem(contestId: Option<string>, problemset: string, index: string, name: string)

  function JoinDash(parts: seq<string>): string {
    if parts == [] then "" else if |parts| == 1 then parts[0] else parts[0] + "-" + JoinDash(parts[1..])
  }

  function Part(s: string): seq<string> {
    if s == "" then [] else [s]
  }

  /** codeforcesMatrixProblemKey; contestId is the decimal form of a non-zero contest id. */
  function CodeforcesKey(contestId: string, p: CodeforcesProblem): string {
    var contest := if p.contestId.Some? then p.contestId.value else TrimSpace(contestId);
    var prefix := JoinDash(Part(TrimSpace(p.problemset)) + Part(contest) + Part(TrimSpace(p.index)));
    var name := TrimSpace(p.name);
    if prefix != "" && name != "" then prefix + " " + name else if prefix != "" then prefix else name
  }

  predicate NoSpace(s: string) {
    forall i :: 0 <= i < |s| ==> !IsSpace(s[i])
  }

  lemma {:induction false} WordStopsAtSpace(w: string, rest: string)
    requires NoSpace(w) && (rest == "" || IsSpace(rest[0]))
    ensures Word(w + rest) == w
  {
    if w == "" {
      assert w + rest == rest;
    } else {
      assert (w + rest)[1..] == w[1..] + rest;
      WordStopsAtSpace(w[1..], rest);
    }
  }

  lemma FirstFieldOf(w: string, rest: string)
    requires w != "" && NoSpace(w) && (rest == "" || IsSpace(rest[0]))
    ensures FirstField(w + rest) == w
  {
    assert (w + rest)[0] == w[0] && SkipLeft(w + rest, 0) == 0;
    assert (w + rest)[0..] == w + rest;
    WordStopsAtSpace(w, rest);
  }

  /** What follows the index in a column key. */
  function AfterIndex(p: CodeforcesProblem): string {
    if TrimSpace(p.name) == "" then "" else " " + TrimSpace(p.name)
  }

  lemma CodeforcesKeyShape(contest: string, p: CodeforcesProblem)
    requires TrimSpace(contest) == contest != "" && TrimSpace(p.problemset) == "" && TrimSpace(p.index) == p.index != ""
    requires p.contestId.Some? ==> p.contestId.value == contest
    ensures CodeforcesKey(contest, p) == (contest + "-") + (p.index + AfterIndex(p))
  {
    var parts := Part(TrimSpace(p.problemset)) + Part(contest) + Part(p.index);
    assert parts == [contest, p.index] && parts[1..] == [p.index];
    assert JoinDash(parts) == contest + "-" + p.index;
  }

  lemma KeyIsTrimmed(contest: string, p: CodeforcesProblem)
    requires Trimmed(contest) && contest != "" && p.index != "" && NoSpace(p.index)
    ensures Trimmed(p.index + AfterIndex(p)) && Trimmed((contest + "-") + (p.index + AfterIndex(p)))
  {
    TrimSpaceTrims(p.name);
  }

  lemma IndexAfterDash(site: Site, key: string, tail: string, n: nat)
    requires IsPlatform(site, "CodeForces") && !IsPlatform(site, "AtCoder") && TrimSpace(site.contestId) != ""
    requires TrimSpace(key) == TrimSpace(site.contestId) + "-" + tail && TrimSpace(tail) == tail != ""
    ensures DeriveIndex(site, key, n) == FirstField(tail)
  {
    var dashed := TrimSpace(site.contestId) + "-";
    assert (dashed + tail)[|dashed|..] == tail && dashed <= dashed + tail;
  }

  /** Round trip: the index of a Codeforces problem can be read back from its column key. */
  lemma IndexFromKey(site: Site, p: CodeforcesProblem, n: nat)
    requires IsPlatform(site, "CodeForces") && !IsPlatform(site, "AtCoder")
    requires Trimmed(site.contestId) && site.contestId != "" && TrimSpace(p.problemset) == ""
    requires p.contestId.Some? ==> p.contestId.value == site.contestId
    requires p.index != "" && NoSpace(p.index)
    ensures DeriveIndex(site, CodeforcesKey(site.contestId, p), n) == p.index
  {
    TrimSpaceTrims(site.contestId);
    TrimSpaceTrims(p.index);
    CodeforcesKeyShape(site.contestId, p);
    KeyIsTrimmed(site.contestId, p);
    var dashed, tail := site.contestId + "-", p.index + AfterIndex(p);
    TrimSpaceTrims(dashed + tail);
    TrimSpaceTrims(tail);
    IndexAfterDash(site, CodeforcesKey(site.contestId, p), tail, n);
    FirstFieldOf(p.index, AfterIndex(p));
  }

  /** An AtCoder task id is the contest followed by the index, which is shown in upper case. */
  lemma AtCoderIndex(site: Site, letters: string, n: nat)
    requires IsPlatform(site, "AtCoder") && Trimmed(site.contestId) && site.contestId != "" && AllLetters(letters)
    ensures DeriveIndex(site, site.contestId + "_" + letters, n) == site.cs.upper(letters)
  {
    var underscored := site.contestId + "_";
    TrimSpaceTrims(site.contestId);
    assert Trimmed(underscored + letters) by {
      assert (underscored + letters)[0] == site.contestId[0];
      assert (underscored + letters)[|underscored + letters| - 1] == letters[|letters| - 1];
    }
    TrimSpaceTrims(underscored + letters);
    assert (underscored + letters)[|underscored|..] == letters;
  }

  /** On other sites the index is the first field of the problem if that has at most four characters, and the
      letter of the position otherwise. */
  lemma IndexElsewhere(site: Site, problem: string, n: nat)
    requires !IsPlatform(site, "AtCoder") && !IsPlatform(site, "CodeForces")
    ensures var field, index := FirstField(TrimSpace(problem)), DeriveIndex(site, problem, n);
            && (1 <= |field| <= 4 ==> index == field)
            && (field == "" || |field| > 4 ==> |index| == 1 && index[0] as int == 'A' as int + n % 26)
  {
  }

  // ---------------------------------------------------------------- aliases

  /** The texts under which a column is registered, before trimming and case folding. */
  function Labels(p: ProblemMeta): seq<string> {
    [p.key, p.index, p.name] + p.aliases
  }

  predicate Registers(cs: Casing, name: string, text: string) {
    var alias := TrimSpace(name);
    alias != "" && (text == alias || text == cs.lower(alias))
  }

  predicate AnyRegisters(cs: Casing, labels: seq<string>, text: string) {
    exists i :: 0 <= i < |labels| && Registers(cs, labels[i], text)
  }

  /** Column `p` claims `text`. */
  predicate Claims(cs: Casing, p: ProblemMeta, text: string) {
    TrimSpace(p.key) != "" && AnyRegisters(cs, Labels(p), text)
  }

  /** A column claims its key, index, name and aliases, trimmed, as they are and in lower case, and nothing else. */
  lemma ClaimsExactly(cs: Casing, p: ProblemMeta, text: string)
    ensures Claims(cs, p, text) <==>
            TrimSpace(p.key) != "" &&
            exists l :: (l == p.key || l == p.index || l == p.name || l in p.aliases) &&
                        TrimSpace(l) != "" && (text == TrimSpace(l) || text == cs.lower(TrimSpace(l)))
  {
    var labels := Labels(p);
    assert labels[0] == p.key && labels[1] == p.index && labels[2] == p.name;
    assert forall i :: 0 <= i < |p.aliases| ==> labels[i + 3] == p.aliases[i];
    forall l | l == p.key || l == p.index || l == p.name || l in p.aliases
      ensures exists i :: 0 <= i < |labels| && labels[i] == l
    {
      if l in p.aliases {
        var i :| 0 <= i < |p.aliases| && p.aliases[i] == l;
        assert labels[i + 3] == l;
      }
    }
  }

  /** The last column to claim `text` wins. */
  function LastClaimant(cs: Casing, problems: seq<ProblemMeta>, text: string): Option<string> {
    if problems == [] then None
    else if Claims(cs, problems[|problems| - 1], text) then Some(TrimSpace(problems[|problems| - 1].key))
    else LastClaimant(cs, problems[..|problems| - 1], text)
  }

  function Lookup(m: map<string, string>, text: string): Option<string> {
    if text in m then Some(m[text]) else None
  }

  method RegisterProblemAlias(cs: Casing, aliases: map<string, string>, alias: string, canonical: string)
    returns (r: map<string, string>)
    ensures forall t :: Lookup(r, t) == if TrimSpace(canonical) != "" && Registers(cs, alias, t)
                                        then Some(TrimSpace(canonical)) else Lookup(aliases, t)
  {
    var a, c := TrimSpace(alias), TrimSpace(canonical);
    if a == "" || c == "" {
      return aliases;
    }
    r := aliases[a := c][cs.lower(a) := c];
  }

  method RegisterProblem(cs: Casing, before: map<string, string>, p: ProblemMeta) returns (aliases: map<string, string>)
    ensures forall t :: Lookup(aliases, t) == if Claims(cs, p, t) then Some(TrimSpace(p.key)) else Lookup(before, t)
  {
    var labels := Labels(p);
    aliases := before;
    for j := 0 to |labels|
      invariant forall t :: Lookup(aliases, t) == if TrimSpace(p.key) != "" && AnyRegisters(cs, labels[..j], t)
                                                  then Some(TrimSpace(p.key)) else Lookup(before, t)
    {
      aliases := RegisterProblemAlias(cs, aliases, labels[j], p.key);
      assert labels[..j + 1] == labels[..j] + [labels[j]];
      forall t {
        AnyRegistersAppend(cs, labels[..j], labels[j], t);
      }
    }
    assert labels[..|labels|] == labels;
  }

  lemma AnyRegistersAppend(cs: Casing, labels: seq<string>, name: string, t: string)
    ensures AnyRegisters(cs, labels + [name], t) <==> AnyRegisters(cs, labels, t) || Registers(cs, name, t)
  {
    assert (labels + [name])[|labels|] == name;
    assert forall m :: 0 <= m < |labels| ==> (labels + [name])[m] == labels[m];
  }

  method BuildProblemAliasMap(cs: Casing, problems: seq<ProblemMeta>) returns (aliases: map<string, string>)
    ensures forall t {:trigger Lookup(aliases, t)} :: Lookup(aliases, t) == LastClaimant(cs, problems, t)
  {
    aliases := map[];
    for i := 0 to |problems|
      invariant forall t {:trigger Lookup(aliases, t)} :: Lookup(aliases, t) == LastClaimant(cs, problems[..i], t)
    {
      aliases := RegisterProblem(cs, aliases, problems[i]);
      assert problems[..i + 1][..i] == problems[..i];
    }
    assert problems[..|problems|] == problems;
  }

  /** canonicalProblemKey, over the table that BuildProblemAliasMap computes. */
  function CanonicalKey(cs: Casing, problems: seq<ProblemMeta>, raw: string): string {
    var key := TrimSpace(raw);
    if key == "" then ""
    else if LastClaimant(cs, problems, key).Some? then LastClaimant(cs, problems, key).value
    else if LastClaimant(cs, problems, cs.lower(key)).Some? then LastClaimant(cs, problems, cs.lower(key)).value
    else key
  }

  /** `w` is the position of the last column that claims `text`, or -1. */
  lemma {:induction false} WinningColumn(cs: Casing, problems: seq<ProblemMeta>, text: string) returns (w: int)
    ensures -1 <= w < |problems|
    ensures w >= 0 ==> Claims(cs, problems[w], text)
    ensures forall j :: w < j < |problems| ==> !Claims(cs, problems[j], text)
    ensures LastClaimant(cs, problems, text) == if w >= 0 then Some(TrimSpace(problems[w].key)) else None
  {
    if problems == [] {
      w := -1;
    } else if Claims(cs, problems[|problems| - 1], text) {
      w := |problems| - 1;
    } else {
      w := WinningColumn(cs, problems[..|problems| - 1], text);
    }
  }

  lemma ClaimsOwnKey(cs: Casing, p: ProblemMeta)
    requires Trimmed(p.key) && p.key != ""
    ensures Claims(cs, p, p.key)
  {
    TrimSpaceTrims(p.key);
    assert Registers(cs, Labels(p)[0], p.key);
  }

  /** A text that some column claims (its key, index, name or an alias, as written or in lower case) is
      mapped to the last column that claims it. */
  lemma ClaimedTextFindsColumn(cs: Casing, columns: seq<ProblemMeta>, i: nat, raw: string) returns (w: nat)
    requires i < |columns| && ProperKeys(columns) && TrimSpace(raw) != "" && Claims(cs, columns[i], TrimSpace(raw))
    ensures i <= w < |columns| && Claims(cs, columns[w], TrimSpace(raw)) && CanonicalKey(cs, columns, raw) == columns[w].key
    ensures forall j :: w < j < |columns| ==> !Claims(cs, columns[j], TrimSpace(raw))
  {
    var winner := WinningColumn(cs, columns, TrimSpace(raw));
    w := winner;
    TrimSpaceTrims(columns[w].key);
  }

  /** Case does not matter: a text that equals a label of some column up to case is mapped to a column. */
  lemma CaseDoesNotMatter(cs: Casing, columns: seq<ProblemMeta>, i: nat, name: string, raw: string) returns (w: nat)
    requires i < |columns| && ProperKeys(columns) && name in Labels(columns[i]) && TrimSpace(name) != "" && TrimSpace(raw) != ""
    requires cs.lower(TrimSpace(raw)) == cs.lower(TrimSpace(name))
    ensures w < |columns| && CanonicalKey(cs, columns, raw) == columns[w].key
    ensures Claims(cs, columns[w], TrimSpace(raw)) || Claims(cs, columns[w], cs.lower(TrimSpace(raw)))
  {
    var text := TrimSpace(raw);
    var exact := WinningColumn(cs, columns, text);
    var folded := WinningColumn(cs, columns, cs.lower(text));
    TrimSpaceTrims(columns[i].key);
    var l :| 0 <= l < |Labels(columns[i])| && Labels(columns[i])[l] == name;
    assert Registers(cs, Labels(columns[i])[l], cs.lower(text));
    assert Claims(cs, columns[i], cs.lower(text));
    w := if exact >= 0 then exact else folded;
    TrimSpaceTrims(columns[w].key);
  }

  lemma OwnKeyWinner(cs: Casing, columns: seq<ProblemMeta>, i: nat) returns (w: nat)
    requires i < |columns| && ProperKeys(columns)
    ensures i <= w < |columns| && CanonicalKey(cs, columns, columns[i].key) == columns[w].key
    ensures w == i || Claims(cs, columns[w], columns[i].key)
    ensures forall j :: w < j < |columns| ==> !Claims(cs, columns[j], columns[i].key)
  {
    TrimSpaceTrims(columns[i].key);
    ClaimsOwnKey(cs, columns[i]);
    w := ClaimedTextFindsColumn(cs, columns, i, columns[i].key);
  }

  /** No submission is lost: with columns built from the same submissions, a submission is mapped
      to an existing column exactly when its problem or its id is not blank, whatever the labels
      of the columns overwrite in the alias table. */
  lemma EverySubmissionHasColumn(site: Site, meta: seq<ProblemMeta>, subs: seq<SubmitLog>, s: SubmitLog)
    requires s in subs
    ensures var columns := ContestColumns(site, meta, subs);
            HasColumn(columns, CanonicalKey(site.cs, columns, SubmissionKey(s))) <==>
            TrimSpace(s.problem) != "" || TrimSpace(s.submitId) != ""
  {
    var columns, key := ContestColumns(site, meta, subs), SubmissionKey(s);
    ColumnKeys(site, meta, subs);
    if key != "" {
      var i :| 0 <= i < |subs| && subs[i] == s;
      assert Mentions(meta, subs)[|meta| + i].key == key;
      assert HasColumn(columns, key);
      var c :| 0 <= c < |columns| && columns[c].key == key;
      var w := OwnKeyWinner(site.cs, columns, c);
    }
  }

  /** A key stays with its own column exactly when no later column claims the same text. */
  lemma KeepsOwnColumn(cs: Casing, columns: seq<ProblemMeta>, i: nat)
    requires i < |columns| && DistinctKeys(columns) && ProperKeys(columns)
    ensures CanonicalKey(cs, columns, columns[i].key) == columns[i].key <==>
            forall j :: i < j < |columns| ==> !Claims(cs, columns[j], columns[i].key)
  {
    var w := OwnKeyWinner(cs, columns, i);
  }

  lemma TwoColumns(site: Site, a: ProblemMeta, b: ProblemMeta)
    requires Trimmed(a.key) && Trimmed(b.key) && a.key != b.key && a.key != "" && b.key != ""
    ensures ContestColumns(site, [a, b], []) == [ColumnOf(site, MetaMention(a), 0), ColumnOf(site, MetaMention(b), 1)]
  {
    TrimSpaceTrims(a.key);
    TrimSpaceTrims(b.key);
    var ms := Mentions([a, b], []);
    assert ms == [MetaMention(a), MetaMention(b)];
    AllAreFirst(ms);
  }

  /** Two columns of one contest can really collide: the metadata titles the second problem like the first
      one's key, and everything submitted to the first problem ends up in the second column. */
  lemma OwnColumnCanBeTaken(site: Site)
    ensures var columns := ContestColumns(site, [ProblemMeta("A", "A", "A", "", []), ProblemMeta("B", "B", "A", "", [])], []);
            |columns| == 2 && columns[0].key == "A" && CanonicalKey(site.cs, columns, "A") == columns[1].key == "B"
  {
    var a, b := ProblemMeta("A", "A", "A", "", []), ProblemMeta("B", "B", "A", "", []);
    TrimSpaceTrims("A");
    TrimSpaceTrims("B");
    TwoColumns(site, a, b);
    var second := ColumnOf(site, MetaMention(b), 1);
    assert Registers(site.cs, Labels(second)[2], "A");
  }
}

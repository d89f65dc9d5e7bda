/**
 * The start of a CSV import: the registry of mapping ids, the ranking of
 * the mappings by their confidence score for the uploaded file, and the
 * chain of checks that ends the run in exactly one terminal state or hands
 * the file to the chosen mapper.
 */
module CsvImports {
  import opened Wrappers
  import opened Values
  import opened CsvAdapters

  // ---------------------------------------------------------------- the registry

  /** A mapper class: its name and the ids of its mappings, in order. */
  datatype MapperClass = MapperClass(name: string, mappingIds: seq<string>)

  /** A registry entry: a mapping id and the name of its class. */
  type Entry = (string, string)

  /** The first `j` mappings of a class as registry entries. */
  function ClassEntries(c: MapperClass, j: nat): (r: seq<Entry>)
    requires j <= |c.mappingIds|
    ensures |r| == j
    ensures forall k :: 0 <= k < j ==> r[k] == (c.mappingIds[k], c.name)
  {
    seq(j, k requires 0 <= k < j => (c.mappingIds[k], c.name))
  }

  /** Every mapping of every class, class by class, in order. */
  function Flatten(classes: seq<MapperClass>): seq<Entry> {
    if classes == [] then []
    else Flatten(classes[..|classes| - 1]) + ClassEntries(classes[|classes| - 1], |classes[|classes| - 1].mappingIds|)
  }

  /** The id at position `j` was already registered before it. */
  predicate RepeatAt(entries: seq<Entry>, j: int)
    requires 0 <= j < |entries|
  {
    exists k :: 0 <= k < j && entries[k].0 == entries[j].0
  }

  predicate IdsDistinct(entries: seq<Entry>) {
    forall i, j :: 0 <= i < j < |entries| ==> entries[i].0 != entries[j].0
  }

  /** The id of the first repeated entry at or after position `i`. */
  function FirstRepeat(entries: seq<Entry>, i: nat): (r: Option<string>)
    requires i <= |entries|
    ensures r.None? <==> forall j :: i <= j < |entries| ==> !RepeatAt(entries, j)
    decreases |entries| - i
  {
    if i == |entries| then None
    else if RepeatAt(entries, i) then Some(entries[i].0)
    else FirstRepeat(entries, i + 1)
  }

  /** No entry repeats an earlier id exactly when the ids are pairwise distinct. */
  lemma NoRepeatIffDistinct(entries: seq<Entry>)
    ensures (forall j :: 0 <= j < |entries| ==> !RepeatAt(entries, j)) <==> IdsDistinct(entries)
  {
    if !IdsDistinct(entries) {
      var i, j :| 0 <= i < j < |entries| && entries[i].0 == entries[j].0;
      assert RepeatAt(entries, j);
    }
  }

  /**
   * `all_mappers`: the entries of every class in order, refused at the
   * first repeated id, and refused when there are none.
   */
  function Registry(classes: seq<MapperClass>): (r: Result<seq<Entry>, string>)
    ensures r.Success? <==> Flatten(classes) != [] && IdsDistinct(Flatten(classes))
    ensures r.Success? ==> r.value == Flatten(classes)
  {
    var entries := Flatten(classes);
    var dup := FirstRepeat(entries, 0);
    NoRepeatIffDistinct(entries);
    if dup.Some? then Failure("duplicate mapping id found: " + dup.value)
    else if entries == [] then Failure("no mappers found!")
    else Success(entries)
  }

  /** The first repeat found in a prefix is the first repeat of the whole. */
  lemma {:induction false} FirstRepeatPrefix(pre: seq<Entry>, all: seq<Entry>, i: nat)
    requires |pre| <= |all| && all[..|pre|] == pre && i <= |pre|
    requires FirstRepeat(pre, i).Some?
    ensures FirstRepeat(all, i) == FirstRepeat(pre, i)
    decreases |pre| - i
  {
    assert all[i] == pre[i];
    assert RepeatAt(all, i) <==> RepeatAt(pre, i) by {
      assert forall k :: 0 <= k < i ==> all[k] == pre[k];
    }
    if !RepeatAt(pre, i) {
      FirstRepeatPrefix(pre, all, i + 1);
    }
  }

  /** Distinct ids followed by one already among them: that one is the first repeat. */
  lemma {:induction false} RepeatIsFirst(mappings: seq<Entry>, id: string, name: string, i: nat)
    requires IdsDistinct(mappings) && HasId(mappings, id) && i <= |mappings|
    ensures FirstRepeat(mappings + [(id, name)], i) == Some(id)
    decreases |mappings| - i
  {
    var all := mappings + [(id, name)];
    if i == |mappings| {
      var k :| 0 <= k < |mappings| && mappings[k].0 == id;
      assert all[k] == mappings[k];
      assert RepeatAt(all, i);
    } else {
      assert !RepeatAt(all, i) by {
        assert forall k :: 0 <= k <= i ==> all[k] == mappings[k];
      }
      RepeatIsFirst(mappings, id, name, i + 1);
    }
  }

  predicate HasId(entries: seq<Entry>, id: string) {
    exists k :: 0 <= k < |entries| && entries[k].0 == id
  }

  /** `all_mappers[id]`. */
  function ClassOf(entries: seq<Entry>, id: string): (klass: string)
    requires HasId(entries, id)
    ensures (id, klass) in entries
  {
    if entries[0].0 == id then entries[0].1 else ClassOf(entries[1..], id)
  }

  lemma {:induction false} FlattenAppend(classes: seq<MapperClass>, i: nat)
    requires i < |classes|
    ensures Flatten(classes[..i + 1]) == Flatten(classes[..i]) + ClassEntries(classes[i], |classes[i].mappingIds|)
  {
    assert classes[..i + 1][..i] == classes[..i];
  }

  /** The entries registered before class `i`'s `j`th mapping are a prefix of all entries. */
  lemma {:induction false} FlattenPrefix(classes: seq<MapperClass>, i: nat, j: nat)
    requires i < |classes| && j <= |classes[i].mappingIds|
    ensures var p := Flatten(classes[..i]) + ClassEntries(classes[i], j);
            |p| <= |Flatten(classes)| && Flatten(classes)[..|p|] == p
    decreases |classes|
  {
    if i + 1 == |classes| {
      assert classes[..i + 1] == classes;
      FlattenAppend(classes, i);
      assert ClassEntries(classes[i], |classes[i].mappingIds|)[..j] == ClassEntries(classes[i], j);
    } else {
      var init := classes[..|classes| - 1];
      assert init[..i] == classes[..i];
      FlattenPrefix(init, i, j);
      assert Flatten(classes) == Flatten(init) + ClassEntries(classes[|classes| - 1], |classes[|classes| - 1].mappingIds|);
    }
  }

  // ---------------------------------------------------------------- the ranking

  /** A candidate mapping id with its non-zero score. */
  type Candidate = (string, int)

  /** `klass.confidence_score(...) || 0` for an entry. */
  function ScoreOf(score: (string, string) -> Option<int>, e: Entry): int {
    score(e.0, e.1).GetOr(0)
  }

  /** The entries with a non-zero score, in registry order. */
  function Scored(registry: seq<Entry>, score: (string, string) -> Option<int>): (r: seq<Candidate>)
    ensures forall c :: c in r ==> c.1 != 0
  {
    if registry == [] then []
    else
      var e := registry[|registry| - 1];
      Scored(registry[..|registry| - 1], score) + (if ScoreOf(score, e) != 0 then [(e.0, ScoreOf(score, e))] else [])
  }

  /** A candidate is kept exactly when its entry is registered with that non-zero score. */
  lemma {:induction false} ScoredMembers(registry: seq<Entry>, score: (string, string) -> Option<int>, c: Candidate)
    ensures c in Scored(registry, score) <==>
              exists k :: 0 <= k < |registry| && registry[k].0 == c.0 && ScoreOf(score, registry[k]) == c.1 && c.1 != 0
  {
    if registry != [] {
      var init := registry[..|registry| - 1];
      ScoredMembers(init, score, c);
      if exists k :: 0 <= k < |init| && init[k].0 == c.0 && ScoreOf(score, init[k]) == c.1 && c.1 != 0 {
        var k :| 0 <= k < |init| && init[k].0 == c.0 && ScoreOf(score, init[k]) == c.1 && c.1 != 0;
        assert registry[k] == init[k];
      }
    }
  }

  predicate SortedDesc(s: seq<Candidate>) {
    forall i, j :: 0 <= i < j < |s| ==> s[i].1 >= s[j].1
  }

  /** `x` placed before the first candidate it does not score below. */
  function Insert(x: Candidate, sorted: seq<Candidate>): seq<Candidate> {
    if sorted == [] || x.1 >= sorted[0].1 then [x] + sorted
    else [sorted[0]] + Insert(x, sorted[1..])
  }

  /** `sort_by { |_, v| -v }`, taken stable. */
  function SortDesc(s: seq<Candidate>): seq<Candidate> {
    if s == [] then [] else Insert(s[0], SortDesc(s[1..]))
  }

  lemma {:induction false} InsertKeeps(x: Candidate, sorted: seq<Candidate>)
    requires SortedDesc(sorted)
    ensures SortedDesc(Insert(x, sorted))
    ensures multiset(Insert(x, sorted)) == multiset(sorted) + multiset{x}
  {
    if sorted == [] || x.1 >= sorted[0].1 {
      forall i | 0 <= i < |sorted|
        ensures x.1 >= sorted[i].1
      {
        assert sorted[0].1 >= sorted[i].1;
      }
      PrependSorted(x, sorted);
    } else {
      InsertKeeps(x, sorted[1..]);
      InsertBehind(x, sorted);
    }
  }

  /** Inserting behind the head keeps the order and the candidates once the tail insertion does. */
  lemma InsertBehind(x: Candidate, sorted: seq<Candidate>)
    requires SortedDesc(sorted) && sorted != [] && x.1 < sorted[0].1
    requires SortedDesc(Insert(x, sorted[1..]))
    requires multiset(Insert(x, sorted[1..])) == multiset(sorted[1..]) + multiset{x}
    ensures SortedDesc(Insert(x, sorted))
    ensures multiset(Insert(x, sorted)) == multiset(sorted) + multiset{x}
  {
    var rest := Insert(x, sorted[1..]);
    forall i | 0 <= i < |sorted| - 1
      ensures sorted[0].1 >= sorted[1..][i].1
    {
      assert sorted[1..][i] == sorted[i + 1];
    }
    BoundKept(rest, sorted[1..], x, sorted[0].1);
    PrependSorted(sorted[0], rest);
    assert sorted == [sorted[0]] + sorted[1..];
  }

  /** A bound on every candidate of `tail` and on `x` bounds every candidate of a rearrangement of both. */
  lemma BoundKept(rest: seq<Candidate>, tail: seq<Candidate>, x: Candidate, b: int)
    requires multiset(rest) == multiset(tail) + multiset{x}
    requires forall i :: 0 <= i < |tail| ==> b >= tail[i].1
    requires x.1 < b
    ensures forall i :: 0 <= i < |rest| ==> b >= rest[i].1
  {
    forall i | 0 <= i < |rest|
      ensures b >= rest[i].1
    {
      assert rest[i] in multiset(rest);
      if rest[i] != x {
        assert rest[i] in multiset(tail);
      }
    }
  }

  /** A candidate scoring at least every candidate of a sorted ranking can go first. */
  lemma PrependSorted(c: Candidate, rest: seq<Candidate>)
    requires SortedDesc(rest)
    requires forall i :: 0 <= i < |rest| ==> c.1 >= rest[i].1
    ensures SortedDesc([c] + rest)
  {
    forall i, j | 0 <= i < j < |[c] + rest|
      ensures ([c] + rest)[i].1 >= ([c] + rest)[j].1
    {
      if i == 0 {
        assert ([c] + rest)[j] == rest[j - 1];
      }
    }
  }

  /** The ranking is ordered by non-increasing score and holds exactly the candidates given. */
  lemma {:induction false} SortDescKeeps(s: seq<Candidate>)
    ensures SortedDesc(SortDesc(s))
    ensures multiset(SortDesc(s)) == multiset(s)
  {
    if s != [] {
      SortDescKeeps(s[1..]);
      InsertKeeps(s[0], SortDesc(s[1..]));
      assert s == [s[0]] + s[1..];
    }
  }

  /** `potential_mappers`: the non-zero candidates, best first. */
  function Ranked(registry: seq<Entry>, score: (string, string) -> Option<int>): (r: seq<Candidate>)
    ensures SortedDesc(r) && multiset(r) == multiset(Scored(registry, score))
  {
    SortDescKeeps(Scored(registry, score));
    SortDesc(Scored(registry, score))
  }

  /** The ids of the candidates scoring `best`, in ranking order. */
  function TiedIds(ranked: seq<Candidate>, best: int): (r: seq<string>)
    ensures forall id :: id in r <==> (id, best) in ranked
  {
    if ranked == [] then []
    else (if ranked[0].1 == best then [ranked[0].0] else []) + TiedIds(ranked[1..], best)
  }

  // ---------------------------------------------------------------- the decision chain

  /** What `prepare_and_set_file` yields when it does not raise. */
  datatype PreparedFile = PreparedFile(initialRows: Value, totalRows: int, fileName: string)

  /** What a mapper's `mapping` says about the run: its required options and its error. */
  datatype MappingInfo = MappingInfo(requiredOptions: Option<seq<string>>, error: Value)

  /** How `handle_payload` ends. */
  datatype Decision =
    | Committed(state: string, opts: CommitOptions, initialRows: Value, mappingId: Value)
    | Imported(chosenId: string, klass: string, initialRows: Value)
    | Raised(message: string)

  /** The collaborators `handle_payload` relies on without showing. */
  datatype ImportEnv = ImportEnv(
    score: (string, string) -> Option<int>,
    mappingOf: string -> MappingInfo,
    toI: Value -> int,
    display: Value -> string)

  /**
   * `handle_payload`: `options` are the import's options (still holding
   * `mapping_id`), `prepared` is `None` when preparing the file raised.
   */
  function Decide(options: map<string, Value>, maxRowsLimit: Value, prepared: Option<PreparedFile>,
                  registry: Result<seq<Entry>, string>, env: ImportEnv): (d: Decision)
    ensures prepared.None? ==> d == Committed(PROCESSING_FAILED, NO_OPTIONS.(error := Str("Error while processing")), Nil, Nil)
    ensures d.Committed? ==> d.state in STATES
    ensures d.Imported? ==> registry.Success? && (d.chosenId, d.klass) in registry.value
  {
    var mappingId := Get(options, "mapping_id");
    var opts := options - {"mapping_id"};
    match prepared
    case None => Committed(PROCESSING_FAILED, NO_OPTIONS.(error := Str("Error while processing")), Nil, Nil)
    case Some(f) =>
      if Truthy(maxRowsLimit) && env.toI(maxRowsLimit) < f.totalRows then
        Committed(FAILED, NO_OPTIONS.(error := Str(TooManyRowsMessage(f.totalRows, maxRowsLimit, env.display))), f.initialRows, Nil)
      else if registry.Failure? then Raised(registry.error)
      else Ranking(opts, mappingId, f, registry.value, env)
  }

  /** Once the registry is loaded: no candidate, a tie the mapping id does not settle, or the chosen mapper. */
  function Ranking(opts: map<string, Value>, mappingId: Value, f: PreparedFile, registry: seq<Entry>, env: ImportEnv): (d: Decision)
    ensures d.Committed? ==> d.state in STATES
    ensures d.Imported? ==> (d.chosenId, d.klass) in registry
    ensures !d.Raised?
    ensures (d.Committed? && d.state == UNKNOWN_CSV) <==> Ranked(registry, env.score) == []
  {
    var ranked := Ranked(registry, env.score);
    if ranked == [] then Committed(UNKNOWN_CSV, NO_OPTIONS, f.initialRows, Nil)
    else
      RankedAreRegistered(registry, env.score);
      Tiebreak(opts, mappingId, f, registry, ranked, env)
  }

  /** Among the top-scoring candidates: a tie needs the mapping id to name one of them. */
  function Tiebreak(opts: map<string, Value>, mappingId: Value, f: PreparedFile, registry: seq<Entry>,
                    ranked: seq<Candidate>, env: ImportEnv): (d: Decision)
    requires ranked != [] && forall c :: c in ranked ==> HasId(registry, c.0)
    ensures d.Committed? ==> d.state == ENTER_MAPPING_ID || d.state == ENTER_REQUIRED_OPTIONS || d.state == FAILED
    ensures d.Imported? ==> (d.chosenId, d.klass) in registry
    ensures d.Imported? ==> var tied := TiedIds(ranked, ranked[0].1);
                            d.chosenId in tied && (|tied| > 1 ==> mappingId == Str(d.chosenId))
    ensures !d.Raised?
    ensures d.Imported? ==> var m := env.mappingOf(d.chosenId);
                            OptionsGiven(m, opts) && ValueBlank(m.error)
    ensures d.Committed? && d.state == FAILED ==>
              && d.mappingId.Str?
              && var m := env.mappingOf(d.mappingId.s);
                 OptionsGiven(m, opts) && !ValueBlank(m.error) && d.opts == NO_OPTIONS.(error := m.error)
  {
    var top := ranked[0];
    var tied := TiedIds(ranked, top.1);
    if |tied| > 1 && !(mappingId.Str? && mappingId.s in tied) then
      Committed(ENTER_MAPPING_ID, NO_OPTIONS.(mappers := Some(tied)), f.initialRows, Nil)
    else
      var bestId := if |tied| > 1 then mappingId.s else top.0;
      assert (bestId, top.1) in ranked by {
        if |tied| <= 1 {
          assert top == (top.0, top.1);
        }
      }
      Chosen(opts, f, registry, bestId, env)
  }

  function TooManyRowsMessage(totalRows: int, maxRowsLimit: Value, display: Value -> string): string {
    "file has too many rows " + display(Int(totalRows)) + " (max: " + ToS(maxRowsLimit, display) + ")"
  }

  /** Every option the mapping requires is among the given ones. */
  predicate OptionsGiven(m: MappingInfo, opts: map<string, Value>) {
    forall o :: o in m.requiredOptions.GetOr([]) ==> o in opts
  }

  /** After the mapping id is settled: the required options, the mapping's own error, then the import. */
  function Chosen(opts: map<string, Value>, f: PreparedFile, registry: seq<Entry>, bestId: string, env: ImportEnv): (d: Decision)
    requires HasId(registry, bestId)
    ensures d.Committed? ==> d.mappingId == Str(bestId) && (d.state == ENTER_REQUIRED_OPTIONS || d.state == FAILED)
    ensures d.Imported? ==> d.chosenId == bestId && (bestId, d.klass) in registry
    ensures var required := env.mappingOf(bestId).requiredOptions.GetOr([]);
            && ((d.Committed? && d.state == ENTER_REQUIRED_OPTIONS) <==> exists o :: o in required && o !in opts)
            && (d.Committed? && d.state == ENTER_REQUIRED_OPTIONS ==> d.opts.requiredOptions == Some(required))
    ensures var m := env.mappingOf(bestId);
            && ((d.Committed? && d.state == FAILED) <==> OptionsGiven(m, opts) && !ValueBlank(m.error))
            && (d.Committed? && d.state == FAILED ==> d.opts == NO_OPTIONS.(error := m.error))
            && (d.Imported? <==> OptionsGiven(m, opts) && ValueBlank(m.error))
  {
    var mapping := env.mappingOf(bestId);
    var required := mapping.requiredOptions.GetOr([]);
    var missing := MissingOptions(required, opts);
    if missing != [] then
      assert missing[0] in missing;
      Committed(ENTER_REQUIRED_OPTIONS, NO_OPTIONS.(requiredOptions := Some(required)), f.initialRows, Str(bestId))
    else if !ValueBlank(mapping.error) then
      Committed(FAILED, NO_OPTIONS.(error := mapping.error), f.initialRows, Str(bestId))
    else Imported(bestId, ClassOf(registry, bestId), f.initialRows)
  }

  /** A ranked id is a registered one. */
  lemma RankedAreRegistered(registry: seq<Entry>, score: (string, string) -> Option<int>)
    ensures forall c :: c in Ranked(registry, score) ==> HasId(registry, c.0)
  {
    forall c | c in Ranked(registry, score)
      ensures HasId(registry, c.0)
    {
      assert c in multiset(Scored(registry, score));
      ScoredMembers(registry, score, c);
    }
  }

  // ---------------------------------------------------------------- what the decision chain guarantees

  /** The first candidate of a ranking scores at least as much as every candidate. */
  lemma TopIsMax(ranked: seq<Candidate>, c: Candidate)
    requires SortedDesc(ranked) && ranked != [] && c in ranked
    ensures c.1 <= ranked[0].1
  {
    var i :| 0 <= i < |ranked| && ranked[i] == c;
    if i > 0 {
      assert ranked[0].1 >= ranked[i].1;
    }
  }

  /** The file is refused for its size exactly when a limit is set and the row count exceeds it; equality passes. */
  lemma RowLimit(options: map<string, Value>, maxRowsLimit: Value, f: PreparedFile, registry: Result<seq<Entry>, string>, env: ImportEnv)
    ensures Decide(options, maxRowsLimit, Some(f), registry, env)
              == Committed(FAILED, NO_OPTIONS.(error := Str(TooManyRowsMessage(f.totalRows, maxRowsLimit, env.display))), f.initialRows, Nil)
            <==> Truthy(maxRowsLimit) && env.toI(maxRowsLimit) < f.totalRows
  {
  }

  /** With the file prepared and within its limit, the import is unknown exactly when every mapping scores zero (or nil). */
  lemma {:induction false} UnknownIffNoCandidates(options: map<string, Value>, maxRowsLimit: Value, f: PreparedFile,
                                                  entries: seq<Entry>, env: ImportEnv)
    requires !(Truthy(maxRowsLimit) && env.toI(maxRowsLimit) < f.totalRows)
    ensures var d := Decide(options, maxRowsLimit, Some(f), Success(entries), env);
            (d.Committed? && d.state == UNKNOWN_CSV) <==> forall k :: 0 <= k < |entries| ==> ScoreOf(env.score, entries[k]) == 0
  {
    var scored := Scored(entries, env.score);
    var ranked := Ranked(entries, env.score);
    if ranked == [] {
      assert multiset(scored) == multiset{};
      forall k | 0 <= k < |entries|
        ensures ScoreOf(env.score, entries[k]) == 0
      {
        var c := (entries[k].0, ScoreOf(env.score, entries[k]));
        ScoredMembers(entries, env.score, c);
        assert c !in multiset(scored);
      }
    } else {
      var c := ranked[0];
      assert c in multiset(scored);
      ScoredMembers(entries, env.score, c);
    }
  }

  /** The top of the ranking is the highest score of any scored mapping. */
  lemma TopScoreIsMax(entries: seq<Entry>, score: (string, string) -> Option<int>, c: Candidate)
    requires Ranked(entries, score) != [] && c in Scored(entries, score)
    ensures c.1 <= Ranked(entries, score)[0].1
  {
    assert c in multiset(Ranked(entries, score));
    TopIsMax(Ranked(entries, score), c);
  }

  /** The ids tied at the top are exactly those scored mappings reaching the top score. */
  lemma TiedAreTop(entries: seq<Entry>, score: (string, string) -> Option<int>, id: string)
    requires Ranked(entries, score) != []
    ensures var ranked := Ranked(entries, score);
            id in TiedIds(ranked, ranked[0].1) <==> (id, ranked[0].1) in Scored(entries, score)
  {
    var ranked := Ranked(entries, score);
    assert (id, ranked[0].1) in ranked <==> (id, ranked[0].1) in multiset(ranked);
    assert (id, ranked[0].1) in Scored(entries, score) <==> (id, ranked[0].1) in multiset(Scored(entries, score));
  }

  /**
   * The user is asked for a mapping id exactly when several mappings share
   * the top score and the given `mapping_id` is not one of them; the ids
   * offered are then those tied at the top.
   */
  lemma TieAsksForMapping(options: map<string, Value>, maxRowsLimit: Value, f: PreparedFile,
                          entries: seq<Entry>, env: ImportEnv)
    requires !(Truthy(maxRowsLimit) && env.toI(maxRowsLimit) < f.totalRows)
    requires Ranked(entries, env.score) != []
    ensures var d := Decide(options, maxRowsLimit, Some(f), Success(entries), env);
            var ranked := Ranked(entries, env.score);
            var tied := TiedIds(ranked, ranked[0].1);
            && ((d.Committed? && d.state == ENTER_MAPPING_ID) <==>
                  |tied| > 1 && !(Get(options, "mapping_id").Str? && Get(options, "mapping_id").s in tied))
            && (d.Committed? && d.state == ENTER_MAPPING_ID ==> d.opts.mappers == Some(tied))
  {
  }

  /**
   * The mapping chosen for the import has the top score among all
   * mappings, is registered under the class imported with, and is the
   * user's `mapping_id` when the top score is shared.
   */
  lemma {:induction false} ImportedIsBest(options: map<string, Value>, maxRowsLimit: Value, f: PreparedFile,
                                          entries: seq<Entry>, env: ImportEnv)
    ensures var d := Decide(options, maxRowsLimit, Some(f), Success(entries), env);
            d.Imported? ==>
              var ranked := Ranked(entries, env.score);
              && ranked != []
              && (d.chosenId, ranked[0].1) in Scored(entries, env.score)
              && (forall c :: c in Scored(entries, env.score) ==> c.1 <= ranked[0].1)
              && (d.chosenId, d.klass) in entries
              && (|TiedIds(ranked, ranked[0].1)| > 1 ==> Get(options, "mapping_id") == Str(d.chosenId))
  {
    var d := Decide(options, maxRowsLimit, Some(f), Success(entries), env);
    if d.Imported? {
      var scored := Scored(entries, env.score);
      var ranked := Ranked(entries, env.score);
      assert ranked != [];
      forall c | c in scored
        ensures c.1 <= ranked[0].1
      {
        TopScoreIsMax(entries, env.score, c);
      }
      TiedAreTop(entries, env.score, d.chosenId);
    }
  }

  /** With a single best mapping, the user's `mapping_id` changes nothing. */
  lemma UniqueBestIgnoresMappingId(options: map<string, Value>, maxRowsLimit: Value, f: PreparedFile,
                                   entries: seq<Entry>, env: ImportEnv, m1: Value, m2: Value)
    requires Ranked(entries, env.score) != []
    requires |TiedIds(Ranked(entries, env.score), Ranked(entries, env.score)[0].1)| == 1
    ensures Decide(options["mapping_id" := m1], maxRowsLimit, Some(f), Success(entries), env)
            == Decide(options["mapping_id" := m2], maxRowsLimit, Some(f), Success(entries), env)
  {
    assert options["mapping_id" := m1] - {"mapping_id"} == options["mapping_id" := m2] - {"mapping_id"};
  }

  /** Missing required options stop the run with the mapping's whole required list, not just the missing names. */
  lemma RequiredOptionsCommitted(options: map<string, Value>, maxRowsLimit: Value, f: PreparedFile,
                                 entries: seq<Entry>, env: ImportEnv)
    ensures var d := Decide(options, maxRowsLimit, Some(f), Success(entries), env);
            d.Committed? && d.state == ENTER_REQUIRED_OPTIONS ==>
              && d.mappingId.Str?
              && var required := env.mappingOf(d.mappingId.s).requiredOptions.GetOr([]);
                 && d.opts.requiredOptions == Some(required)
                 && exists o :: o in required && o !in options - {"mapping_id"}
  {
  }

  /**
   * Once the file fits and a mapping is settled, the mapping's own error
   * stops the run as FAILED carrying that error, and the import happens
   * exactly when the options are complete and the mapping has no error.
   */
  lemma {:induction false} MappingErrorOrImport(options: map<string, Value>, maxRowsLimit: Value, f: PreparedFile,
                                                entries: seq<Entry>, env: ImportEnv)
    ensures var d := Decide(options, maxRowsLimit, Some(f), Success(entries), env);
            var opts := options - {"mapping_id"};
            && (d.Imported? ==> var m := env.mappingOf(d.chosenId);
                                OptionsGiven(m, opts) && ValueBlank(m.error))
            && (d.Committed? && d.state == FAILED && d.mappingId != Nil ==>
                  && d.mappingId.Str?
                  && var m := env.mappingOf(d.mappingId.s);
                     OptionsGiven(m, opts) && !ValueBlank(m.error) && d.opts.error == m.error)
  {
    var opts := options - {"mapping_id"};
    var d := Decide(options, maxRowsLimit, Some(f), Success(entries), env);
    if !(Truthy(maxRowsLimit) && env.toI(maxRowsLimit) < f.totalRows) {
      assert d == Ranking(opts, Get(options, "mapping_id"), f, entries, env);
    }
  }

  // ---------------------------------------------------------------- the service

  /** The service object; `all_mappers` is computed once and kept. */
  class CsvImportStarted {
    /** The mapper classes, sorted by name. */
    const classes: seq<MapperClass>
    /** `@all_mappings`, unset until first computed. */
    var allMappings: Option<seq<Entry>>

    predicate Valid()
      reads this
    {
      allMappings.Some? ==> Registry(classes) == Success(allMappings.value)
    }

    constructor (classes: seq<MapperClass>)
      ensures Valid() && this.classes == classes && allMappings == None
    {
      this.classes := classes;
      allMappings := None;
    }

    /** `all_mappers`: the memoised registry, built class by class on first use. */
    method AllMappers() returns (r: Result<seq<Entry>, string>)
      requires Valid()
      modifies this
      ensures Valid()
      ensures r == Registry(classes)
      ensures r.Success? ==> allMappings == Some(r.value)
      ensures r.Failure? ==> allMappings == old(allMappings)
    {
      if allMappings.Some? {
        return Success(allMappings.value);
      }
      var mappings: seq<Entry> := [];
      var i := 0;
      while i < |classes|
        invariant 0 <= i <= |classes|
        invariant mappings == Flatten(classes[..i])
        invariant IdsDistinct(mappings)
        invariant allMappings == None
      {
        var added := RegisterClass(mappings, classes[i]);
        FlattenAppend(classes, i);
        if added.Failure? {
          ghost var pre := Flatten(classes[..i + 1]);
          FlattenPrefix(classes, i, |classes[i].mappingIds|);
          FirstRepeatPrefix(pre, Flatten(classes), 0);
          return Failure(added.error);
        }
        mappings := added.value;
        i := i + 1;
      }
      assert classes[..i] == classes;
      NoRepeatIffDistinct(mappings);
      if mappings == [] {
        return Failure("no mappers found!");
      }
      allMappings := Some(mappings);
      return Success(mappings);
    }

    /** The inner loop of `all_mappers`: a class's mappings added one by one, refused at the first repeated id. */
    static method RegisterClass(mappings: seq<Entry>, c: MapperClass) returns (r: Result<seq<Entry>, string>)
      requires IdsDistinct(mappings)
      ensures var all := mappings + ClassEntries(c, |c.mappingIds|);
              r == if FirstRepeat(all, 0).Some? then Failure("duplicate mapping id found: " + FirstRepeat(all, 0).value)
                   else Success(all)
      ensures r.Success? ==> IdsDistinct(r.value)
    {
      ghost var all := mappings + ClassEntries(c, |c.mappingIds|);
      var current := mappings;
      var j := 0;
      while j < |c.mappingIds|
        invariant 0 <= j <= |c.mappingIds|
        invariant current == mappings + ClassEntries(c, j)
        invariant IdsDistinct(current)
      {
        var id := c.mappingIds[j];
        assert ClassEntries(c, j + 1) == ClassEntries(c, j) + [(id, c.name)];
        if HasId(current, id) {
          assert ClassEntries(c, |c.mappingIds|)[..j + 1] == ClassEntries(c, j + 1);
          assert all[..|current| + 1] == current + [(id, c.name)];
          RepeatIsFirst(current, id, c.name, 0);
          FirstRepeatPrefix(current + [(id, c.name)], all, 0);
          return Failure("duplicate mapping id found: " + id);
        }
        current := current + [(id, c.name)];
        j := j + 1;
      }
      NoRepeatIffDistinct(current);
      return Success(current);
    }

    /** `potential_mappers`: every registered mapping's score, the zero ones dropped, best first. */
    method PotentialMappers(score: (string, string) -> Option<int>) returns (r: Result<seq<Candidate>, string>)
      requires Valid()
      modifies this
      ensures Valid()
      ensures Registry(classes).Failure? ==> r == Failure(Registry(classes).error)
      ensures Registry(classes).Success? ==> r == Success(Ranked(Registry(classes).value, score))
    {
      var registry := AllMappers();
      if registry.Failure? {
        return Failure(registry.error);
      }
      var entries := registry.value;
      var memo: seq<Candidate> := [];
      var i := 0;
      while i < |entries|
        invariant 0 <= i <= |entries|
        invariant memo == Scored(entries[..i], score)
      {
        var s := score(entries[i].0, entries[i].1).GetOr(0);
        if s != 0 {
          memo := memo + [(entries[i].0, s)];
        }
        assert entries[..i + 1][..i] == entries[..i];
        i := i + 1;
      }
      assert entries[..i] == entries;
      return Success(SortDesc(memo));
    }
  }
}

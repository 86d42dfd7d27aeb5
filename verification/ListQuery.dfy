/** The issue list query around the JQL filters: the platform scope, the simple
    filters and the free-text search box. */
module ListQuery {
  import opened Basics
  import opened JqlSyntax
  import opened JqlGrammar
  import opened JqlSql
  import opened SearchTerms
  import opened JqlMeaning
  import JqlParser
  import Like

  /** The request's filters; an empty text is a filter not given. */
  datatype ListFilters = ListFilters(
    platformId: string, status: string, priority: string, assigneeId: string,
    from: string, to: string, jql: string, q: string)

  // ---- What is asked for ---------------------------------------------------

  function TrimLeft(s: string): string {
    if s != "" && IsSpace(s[0]) then TrimLeft(s[1..]) else s
  }

  function TrimRight(s: string): string {
    if s != "" && IsSpace(s[|s| - 1]) then TrimRight(s[..|s| - 1]) else s
  }

  function Trim(s: string): string { TrimRight(TrimLeft(s)) }

  /** Trimming takes white space off both ends, and all of it. */
  lemma {:induction false} TrimIs(s: string)
    ensures exists lead: string, trail: string :: IsBlank(lead) && IsBlank(trail) && s == lead + Trim(s) + trail
    ensures Trim(s) != "" ==> !IsSpace(Trim(s)[0]) && !IsSpace(Trim(s)[|Trim(s)| - 1])
  {
    var lead := LeftTrimmed(s);
    var trail := RightTrimmed(TrimLeft(s));
    assert s == lead + Trim(s) + trail;
    if Trim(s) != "" {
      assert Trim(s)[0] == TrimLeft(s)[0];
    }
  }

  lemma {:induction false} LeftTrimmed(s: string) returns (lead: string)
    ensures IsBlank(lead) && s == lead + TrimLeft(s)
    ensures TrimLeft(s) != "" ==> !IsSpace(TrimLeft(s)[0])
  {
    lead := "";
    if s != "" && IsSpace(s[0]) {
      var more := LeftTrimmed(s[1..]);
      lead := [s[0]] + more;
    }
  }

  lemma {:induction false} RightTrimmed(s: string) returns (trail: string)
    ensures IsBlank(trail) && s == TrimRight(s) + trail
    ensures TrimRight(s) != "" ==> !IsSpace(TrimRight(s)[|TrimRight(s)| - 1])
  {
    trail := "";
    if s != "" && IsSpace(s[|s| - 1]) {
      var more := RightTrimmed(s[..|s| - 1]);
      trail := more + [s[|s| - 1]];
    }
  }

  predicate InScope(scope: Option<seq<string>>, row: Row) {
    scope.Some? ==> row.platformId in scope.value
  }

  predicate SimpleFiltersHold(f: ListFilters, row: Row, db: Db) {
    && (f.platformId != "" ==> row.platformId == f.platformId)
    && (f.status != "" ==> row.status == f.status)
    && (f.priority != "" ==> row.priority == f.priority)
    && (f.assigneeId != "" ==> row.assignee.Some? && row.assignee.value.id == f.assigneeId)
    && (f.from != "" ==> row.createdAt >= db.instant(f.from))
    && (f.to != "" ==> row.createdAt <= db.instant(f.to))
  }

  /** The search box: the reference number contains the trimmed text, or the
      stored vector satisfies its prefix query. */
  predicate SearchHolds(q: string, row: Row, db: Db) {
    q != "" ==>
      || OccursFold(Trim(q), row.referenceNo)
      || (PrefixQuery(Trim(q)) != "" && row.searchVector.Some?
          && db.textMatch(row.searchVector.value, PrefixQuery(Trim(q))))
  }

  // ---- The query -----------------------------------------------------------

  /** One hand-written clause: present or not. */
  datatype Part = Part(given: bool, cond: Cond, name: string, binding: Binding)

  function PartConds(parts: seq<Part>): seq<Cond> {
    if parts == [] then []
    else (if parts[0].given then [parts[0].cond] else []) + PartConds(parts[1..])
  }

  function PartParams(parts: seq<Part>): Params {
    if parts == [] then map[]
    else (if parts[0].given then map[parts[0].name := parts[0].binding] else map[]) + PartParams(parts[1..])
  }

  function ScopeParts(f: ListFilters, scope: Option<seq<string>>): seq<Part> {
    [ Part(scope.Some?, InList(Plain(PlatformIdCol), "scopeIds"), "scopeIds",
           Many(if scope.Some? then scope.value else [])),
      Part(f.platformId != "", Equal(Plain(PlatformIdCol), "platformId"), "platformId", One(f.platformId)),
      Part(f.status != "", Equal(Plain(StatusCol), "status"), "status", One(f.status)),
      Part(f.priority != "", Equal(Plain(PriorityCol), "priority"), "priority", One(f.priority)),
      Part(f.assigneeId != "", Equal(Plain(AssigneeIdCol), "assigneeId"), "assigneeId", One(f.assigneeId)),
      Part(f.from != "", AtLeast(CreatedCol, "from"), "from", One(f.from)),
      Part(f.to != "", AtMost(CreatedCol, "to"), "to", One(f.to)) ]
  }

  function SearchCond(q: string): Cond {
    if PrefixQuery(Trim(q)) == "" then ILike(ReferenceCol, "likeRef")
    else Either(ILike(ReferenceCol, "likeRef"), VectorMatches("tsq"))
  }

  function SearchParams(q: string): Params {
    var like := map["likeRef" := One(Like.Wrap(Like.Escape(Trim(q))))];
    if PrefixQuery(Trim(q)) == "" then like else like["tsq" := One(PrefixQuery(Trim(q)))]
  }

  lemma PartsStep(conds: seq<Cond>, ps: Params, parts: seq<Part>)
    requires parts != []
    ensures var p, rest := parts[0], parts[1..];
            && (p.given ==>
                 && conds + PartConds(parts) == conds + [p.cond] + PartConds(rest)
                 && ps + PartParams(parts) == ps + map[p.name := p.binding] + PartParams(rest))
            && (!p.given ==> PartConds(parts) == PartConds(rest) && PartParams(parts) == PartParams(rest))
  {
    var p, rest := parts[0], parts[1..];
    assert ps + (map[p.name := p.binding] + PartParams(rest)) == ps + map[p.name := p.binding] + PartParams(rest);
    assert map[] + PartParams(rest) == PartParams(rest);
  }

  lemma NoParts(parts: seq<Part>)
    requires parts == []
    ensures PartConds(parts) == [] && PartParams(parts) == map[]
  {
  }

  method AddParts(qb: WhereBuilder, parts: seq<Part>)
    modifies qb
    ensures qb.conds == old(qb.conds) + PartConds(parts)
    ensures qb.params == old(qb.params) + PartParams(parts)
  {
    hide PartConds, PartParams;
    var i := 0;
    assert parts[0..] == parts;
    while i < |parts|
      invariant 0 <= i <= |parts|
      invariant qb.conds + PartConds(parts[i..]) == old(qb.conds) + PartConds(parts)
      invariant qb.params + PartParams(parts[i..]) == old(qb.params) + PartParams(parts)
    {
      assert parts[i..][0] == parts[i] && parts[i..][1..] == parts[i + 1..];
      PartsStep(qb.conds, qb.params, parts[i..]);
      if parts[i].given {
        qb.AndWhere(parts[i].cond, map[parts[i].name := parts[i].binding]);
      }
      i := i + 1;
    }
    NoParts(parts[i..]);
  }

  /** Builds the list query for `staffId`. A `scope` of None is global; the
      callers return early when a staff member has no platform at all. */
  method BuildListQuery(staffId: string, f: ListFilters, scope: Option<seq<string>>, isDate: string -> bool)
    returns (r: Result<WhereBuilder, JqlError>)
    ensures f.jql != "" && Parse(f.jql, isDate).Err? ==> r == Err(Parse(f.jql, isDate).error)
    ensures f.jql == "" || Parse(f.jql, isDate).Ok? ==>
      && r.Ok?
      && var fs := if f.jql == "" then [] else Parse(f.jql, isDate).value;
         AllTyped(fs) && Built(f, scope, fs, staffId, r.value.conds, r.value.params)
  {
    hide PartConds, PartParams, ScopeParts, Clauses, Bindings, SearchCond, SearchParams, Parse, AllWellFormed, AllTyped;
    var qb := new WhereBuilder();
    AddParts(qb, ScopeParts(f, scope));
    ghost var filters: seq<Filter> := [];
    NothingLeft(filters, 0, staffId);
    NoFilters();
    if f.jql != "" {
      var parsed := JqlParser.ParseJql(f.jql, isDate);
      if parsed.Err? {
        return Err(parsed.error);
      }
      AcceptedFiltersWellFormed(f.jql, isDate);
      filters := parsed.value;
      TypedWhenWellFormed(filters, isDate);
      ApplyJqlFilters(qb, parsed.value, staffId);
    }
    if f.q != "" {
      qb.AndWhere(SearchCond(f.q), SearchParams(f.q));
    }
    return Ok(qb);
  }

  lemma NoFilters()
    ensures AllTyped([])
  {
  }

  lemma TypedWhenWellFormed(fs: seq<Filter>, isDate: string -> bool)
    requires AllWellFormed(fs, isDate)
    ensures AllTyped(fs)
  {
  }

  /** The clauses and parameters of the finished query, in order. */
  ghost predicate Built(f: ListFilters, scope: Option<seq<string>>, fs: seq<Filter>, me: string,
                        conds: seq<Cond>, ps: Params)
    requires AllTyped(fs)
  {
    && conds == PartConds(ScopeParts(f, scope)) + Clauses(fs, 0, me) + (if f.q != "" then [SearchCond(f.q)] else [])
    && ps == PartParams(ScopeParts(f, scope)) + Bindings(fs, 0, me) + (if f.q != "" then SearchParams(f.q) else map[])
  }

  // ---- What it selects -----------------------------------------------------

  lemma NotGenerated(name: string)
    requires name == "" || name[0] != 'j'
    ensures !Generated(name, 0)
  {
  }

  predicate OwnName(p: Part) {
    Mentions(p.cond) == {p.name} && p.name != "" && p.name[0] != 'j'
  }

  predicate DistinctNames(parts: seq<Part>) {
    forall i, j :: 0 <= i < j < |parts| ==> parts[i].name != parts[j].name
  }

  lemma {:induction false} PartNames(parts: seq<Part>)
    ensures forall name <- PartParams(parts) :: exists i :: 0 <= i < |parts| && parts[i].name == name
  {
    if parts != [] {
      PartNames(parts[1..]);
      forall name | name in PartParams(parts)
        ensures exists i :: 0 <= i < |parts| && parts[i].name == name
      {
        if name in PartParams(parts[1..]) {
          var i :| 0 <= i < |parts[1..]| && parts[1..][i].name == name;
          assert parts[i + 1].name == name;
        } else {
          assert parts[0].name == name;
        }
      }
    }
  }

  /** A part not given asks for nothing; one given holds under its own binding. */
  predicate PartHolds(p: Part, row: Row, db: Db) {
    p.given ==> Eval(p.cond, map[p.name := p.binding], row, db) == True
  }

  /** Hand-written clauses with names of their own hold together exactly when
      each one given holds under its own binding. */
  lemma FirstPart(parts: seq<Part>, ps: Params, row: Row, db: Db)
    requires parts != [] && OwnName(parts[0])
    requires parts[0].given ==> parts[0].name in ps && ps[parts[0].name] == parts[0].binding
    ensures Selects(PartConds(parts), ps, row, db)
       <==> PartHolds(parts[0], row, db) && Selects(PartConds(parts[1..]), ps, row, db)
  {
    hide Eval;
    var p, rest := parts[0], parts[1..];
    NotGenerated(p.name);
    if p.given {
      assert PartConds(parts) == [p.cond] + PartConds(rest);
      SelectsConcat([p.cond], PartConds(rest), ps, row, db);
      SelectsOne(p.cond, ps, row, db);
      EvalFrame(p.cond, ps, map[p.name := p.binding], row, db);
    } else {
      assert PartConds(parts) == PartConds(rest);
    }
  }

  lemma {:induction false} PartsHandWritten(parts: seq<Part>)
    requires forall i :: 0 <= i < |parts| ==> OwnName(parts[i])
    ensures HandWritten(PartConds(parts))
  {
    if parts != [] {
      var rest := parts[1..];
      assert forall i :: 0 <= i < |rest| ==> rest[i] == parts[i + 1];
      PartsHandWritten(rest);
      NotGenerated(parts[0].name);
    }
  }

  lemma {:induction false} PartsHold(parts: seq<Part>, ps: Params, row: Row, db: Db)
    requires forall i :: 0 <= i < |parts| ==> OwnName(parts[i])
    requires DistinctNames(parts)
    requires Includes(ps, PartParams(parts))
    ensures Selects(PartConds(parts), ps, row, db)
       <==> forall i :: 0 <= i < |parts| ==> PartHolds(parts[i], row, db)
  {
    hide Eval, PartHolds, OwnName, PartConds;
    if parts == [] {
      NoParts(parts);
    } else {
      var p, rest := parts[0], parts[1..];
      assert forall i :: 0 <= i < |rest| ==> rest[i] == parts[i + 1];
      PartNames(rest);
      assert p.name !in PartParams(rest);
      FirstPart(parts, ps, row, db);
      hide Selects;
      PartsHold(rest, ps, row, db);
    }
  }

  lemma ScopePartsHold(f: ListFilters, scope: Option<seq<string>>, ps: Params, row: Row, db: Db)
    requires Includes(ps, PartParams(ScopeParts(f, scope)))
    ensures HandWritten(PartConds(ScopeParts(f, scope)))
    ensures Selects(PartConds(ScopeParts(f, scope)), ps, row, db)
       <==> InScope(scope, row) && SimpleFiltersHold(f, row, db)
  {
    hide ScopeParts, PartConds, PartParams, PartHolds, Selects, SimpleFiltersHold, InScope, OwnName, DistinctNames,
        HandWritten, Includes;
    var parts := ScopeParts(f, scope);
    ScopeNames(f, scope);
    PartsHandWritten(parts);
    PartsHold(parts, ps, row, db);
    EachScopePart(f, scope, row, db);
    assert |parts| == 7;
    assert (forall i :: 0 <= i < |parts| ==> PartHolds(parts[i], row, db))
       <==> && PartHolds(parts[0], row, db) && PartHolds(parts[1], row, db) && PartHolds(parts[2], row, db)
            && PartHolds(parts[3], row, db) && PartHolds(parts[4], row, db) && PartHolds(parts[5], row, db)
            && PartHolds(parts[6], row, db);
  }

  lemma ScopeNames(f: ListFilters, scope: Option<seq<string>>)
    ensures var parts := ScopeParts(f, scope);
            DistinctNames(parts) && forall i :: 0 <= i < |parts| ==> OwnName(parts[i])
  {
  }

  lemma EachScopePart(f: ListFilters, scope: Option<seq<string>>, row: Row, db: Db)
    ensures var parts := ScopeParts(f, scope);
      && |parts| == 7
      && (PartHolds(parts[0], row, db) <==> InScope(scope, row))
      && (SimpleFiltersHold(f, row, db) <==>
            && PartHolds(parts[1], row, db) && PartHolds(parts[2], row, db) && PartHolds(parts[3], row, db)
            && PartHolds(parts[4], row, db) && PartHolds(parts[5], row, db) && PartHolds(parts[6], row, db))
  {
  }

  lemma SearchReads(q: string, ps: Params, row: Row, db: Db)
    requires q != "" && Includes(ps, SearchParams(q))
    ensures Eval(SearchCond(q), ps, row, db) == True <==> SearchHolds(q, row, db)
    ensures forall name <- Mentions(SearchCond(q)) :: !Generated(name, 0)
    ensures forall name <- SearchParams(q) :: name == "likeRef" || name == "tsq"
  {
    hide PrefixQuery, Trim, OccursFold, Like.MatchesFold, Like.Wrap, Like.Escape;
    assert "likeRef" in SearchParams(q);
    PatternEvals(ReferenceCol, Trim(q), "likeRef", ps, row, db);
    assert |"likeRef"| == 7 && "likeRef"[0] == 'l' && |"tsq"| == 3 && "tsq"[0] == 't';
    assert PrefixQuery(Trim(q)) != "" ==> "tsq" in SearchParams(q);
    NotGenerated("likeRef");
    NotGenerated("tsq");
  }

  /** Adding the search clause leaves the earlier clauses as they were. */
  lemma ScopeNameLengths(f: ListFilters, scope: Option<seq<string>>)
    ensures forall name <- PartParams(ScopeParts(f, scope)) :: |name| != 7 && |name| != 3
  {
    var parts := ScopeParts(f, scope);
    PartNames(parts);
    hide PartParams;
    assert forall i :: 0 <= i < |parts| ==> |parts[i].name| != 7 && |parts[i].name| != 3;
  }

  lemma SearchFrame(f: ListFilters, scope: Option<seq<string>>, fs: seq<Filter>, me: string)
    requires AllTyped(fs)
    ensures var ps := PartParams(ScopeParts(f, scope)) + Bindings(fs, 0, me);
            f.q != "" ==> Includes(ps + SearchParams(f.q), ps)
  {
    hide Compile, PrefixQuery, ScopeParts, PartParams;
    var ps := PartParams(ScopeParts(f, scope)) + Bindings(fs, 0, me);
    ScopeNameLengths(f, scope);
    BindingNames(fs, 0, me);
    hide Bindings;
    assert "likeRef"[0] == 'l' && |"likeRef"| == 7 && |"tsq"| == 3 && "tsq"[0] == 't';
    NotGenerated("likeRef");
    NotGenerated("tsq");
    assert "likeRef" !in ps && "tsq" !in ps;
  }

  /** The finished query selects exactly the rows in scope that pass every simple
      filter, read true under every JQL filter and match the search box. In
      particular no JQL text can reach outside the scope. */
  lemma ListSelectsWhatWasAsked(f: ListFilters, scope: Option<seq<string>>, fs: seq<Filter>, me: string,
                                conds: seq<Cond>, ps: Params, row: Row, db: Db)
    requires AllTyped(fs) && Built(f, scope, fs, me, conds, ps)
    ensures Selects(conds, ps, row, db)
       <==> && InScope(scope, row) && SimpleFiltersHold(f, row, db)
            && ReadsAll(fs, row, me, db) && SearchHolds(f.q, row, db)
  {
    hide Compile, Reads, Eval, Selects, ReadsAll, PrefixQuery, ScopeParts;
    var scoped, filters := PartConds(ScopeParts(f, scope)), Clauses(fs, 0, me);
    var own := PartParams(ScopeParts(f, scope));
    var before := own + Bindings(fs, 0, me);
    SearchFrame(f, scope, fs, me);
    assert Includes(ps, before);
    assert Includes(ps, Bindings(fs, 0, me));
    ClausesRead(fs, 0, me, ps, row, db);
    ScopeBindingsKept(f, scope, fs, me, ps);
    ScopePartsHold(f, scope, ps, row, db);
    SelectsConcat(scoped, filters, ps, row, db);
    if f.q != "" {
      SearchReads(f.q, ps, row, db);
      SelectsConcat(scoped + filters, [SearchCond(f.q)], ps, row, db);
      SelectsOne(SearchCond(f.q), ps, row, db);
    } else {
      assert conds == scoped + filters;
    }
  }

  lemma ScopeBindingsKept(f: ListFilters, scope: Option<seq<string>>, fs: seq<Filter>, me: string, ps: Params)
    requires AllTyped(fs)
    requires Includes(ps, PartParams(ScopeParts(f, scope)) + Bindings(fs, 0, me))
    ensures Includes(ps, PartParams(ScopeParts(f, scope)))
  {
    hide Compile;
    var parts := ScopeParts(f, scope);
    PartNames(parts);
    BindingNames(fs, 0, me);
    ScopeNames(f, scope);
    forall name | name in PartParams(parts) ensures name !in Bindings(fs, 0, me) {
      NotGenerated(name);
    }
  }
}

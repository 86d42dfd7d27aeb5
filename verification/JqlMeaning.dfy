/** Compiling filters to SQL preserves their meaning: the conjoined clauses are
    TRUE of a row exactly when the row satisfies the plain reading of every
    filter, whatever is NULL, and no generated name is ever bound twice. */
module JqlMeaning {
  import opened Basics
  import opened JqlSyntax
  import opened JqlGrammar
  import opened JqlSql
  import opened SearchTerms
  import Like

  // ---- Generated names never collide ---------------------------------------

  lemma {:induction false} DecimalInjective(m: nat, n: nat)
    requires Decimal(m) == Decimal(n)
    ensures m == n
    decreases m
  {
    var a, b := Decimal(m), Decimal(n);
    assert a[|a| - 1] == b[|b| - 1];
    assert m % 10 == n % 10;
    if m >= 10 && n >= 10 {
      assert a[..|a| - 1] == Decimal(m / 10) && b[..|b| - 1] == Decimal(n / 10);
      DecimalInjective(m / 10, n / 10);
    } else {
      DecimalNonEmpty(m / 10);
      DecimalNonEmpty(n / 10);
    }
  }

  lemma {:induction false} DecimalNonEmpty(n: nat)
    ensures |Decimal(n)| > 0
  {
  }

  lemma ParamNameInjective(m: nat, n: nat)
    requires ParamName(m) == ParamName(n)
    ensures m == n
  {
    assert ParamName(m)[3..] == Decimal(m) && ParamName(n)[3..] == Decimal(n);
    DecimalInjective(m, n);
  }

  ghost predicate Generated(name: string, from: nat) {
    exists k: nat :: k >= from && name == ParamName(k)
  }

  lemma ClauseNames(f: Filter, n: nat, me: string)
    requires WellTyped(f)
    ensures var c := Compile(f, n, me);
            forall name <- c.bindings :: exists k: nat :: n <= k < n + c.used && name == ParamName(k)
  {
    var c := Compile(f, n, me);
    forall name | name in c.bindings
      ensures exists k: nat :: n <= k < n + c.used && name == ParamName(k)
    {
      if name == ParamName(n) {
        assert n <= n < n + c.used;
      } else {
        assert name == ParamName(n + 1) && n + 1 < n + c.used;
      }
    }
  }

  lemma {:induction false} BindingNames(fs: seq<Filter>, n: nat, me: string)
    requires AllTyped(fs)
    ensures forall name <- Bindings(fs, n, me) :: Generated(name, n)
  {
    if fs != [] {
      hide Compile;
      var c := Compile(fs[0], n, me);
      ClauseNames(fs[0], n, me);
      BindingNames(fs[1..], n + c.used, me);
      forall name | name in Bindings(fs, n, me) ensures Generated(name, n) {
        if name in c.bindings {
          var k: nat :| n <= k < n + c.used && name == ParamName(k);
        } else {
          assert Generated(name, n + c.used);
        }
      }
    }
  }

  /** A clause's own names are bound by no later clause. */
  lemma LaterNamesDiffer(f: Filter, rest: seq<Filter>, n: nat, me: string)
    requires WellTyped(f) && AllTyped(rest)
    ensures var c := Compile(f, n, me);
            c.bindings.Keys !! Bindings(rest, n + c.used, me).Keys
  {
    hide Compile;
    var c := Compile(f, n, me);
    ClauseNames(f, n, me);
    BindingNames(rest, n + c.used, me);
    forall name | name in c.bindings ensures name !in Bindings(rest, n + c.used, me) {
      var k: nat :| n <= k < n + c.used && name == ParamName(k);
      if name in Bindings(rest, n + c.used, me) {
        var m: nat :| m >= n + c.used && name == ParamName(m);
        ParamNameInjective(k, m);
        assert false;
      }
    }
  }

  // ---- One clause ----------------------------------------------------------

  /** `ps` binds everything `own` binds, to the same values. */
  ghost predicate Includes(ps: Params, own: Params) {
    forall name <- own :: name in ps && ps[name] == own[name]
  }

  lemma MembershipReads(o: Operand, f: Filter, vs: seq<string>, n: nat, ps: Params, row: Row, db: Db)
    requires vs != [] && f.op in {Eq, Neq, In}
    requires OperandValue(o, row).Some?
    requires var c := Membership(o, f.op, vs, n); Includes(ps, c.bindings)
    ensures var got := OperandValue(o, row).value;
            Eval(Membership(o, f.op, vs, n).cond, ps, row, db)
            == OfBool(if f.op == In then got in vs else if f.op == Eq then got == vs[0] else got != vs[0])
  {
    var c := Membership(o, f.op, vs, n);
    assert ParamName(n) in c.bindings;
  }

  lemma AssigneeReads(f: Filter, n: nat, me: string, ps: Params, row: Row, db: Db)
    requires WellTyped(f) && f.field == Assignee
    requires Includes(ps, CompileAssignee(f, n, me).bindings)
    ensures Eval(CompileAssignee(f, n, me).cond, ps, row, db) == True <==> Reads(f, row, me, db)
  {
    var c := CompileAssignee(f, n, me);
    var v := f.values[0];
    var p := ParamName(n);
    if f.op == In {
      assert p in c.bindings;
      if row.assignee.Some? {
        var name := Lower(row.assignee.value.name);
        assert name in LowerAll(f.values) <==> exists k :: 0 <= k < |f.values| && name == LowerAll(f.values)[k];
        assert name in LowerAll(f.values) <==>
               exists k :: 0 <= k < |f.values| && ListedIs(Assignee, f.values[k], row, me);
      }
    } else if f.op == Tilde || Lower(v) != "unassigned" || Lower(v) == "me" {
      assert p in c.bindings;
    }
  }

  lemma ReporterReads(f: Filter, n: nat, me: string, ps: Params, row: Row, db: Db)
    requires WellTyped(f) && f.field == Reporter
    requires Includes(ps, CompileReporter(f, n).bindings)
    ensures Eval(CompileReporter(f, n).cond, ps, row, db) == True <==> Reads(f, row, me, db)
  {
    assert ParamName(n) in CompileReporter(f, n).bindings;
  }

  /** The search condition with a text-search query, of any row. */
  lemma SearchCondition(like: string, tq: string, query: string, ps: Params, row: Row, db: Db,
                        refHit: bool, descHit: bool)
    requires Eval(ILike(ReferenceCol, like), ps, row, db) == OfBool(refHit)
    requires Eval(ILike(DescriptionCol, like), ps, row, db) == OfBool(descHit)
    requires tq in ps && ps[tq] == One(query)
    ensures Eval(Either(Either(ILike(ReferenceCol, like), VectorMatches(tq)),
                        Both(VectorIsNull, ILike(DescriptionCol, like))), ps, row, db) == True
       <==> refHit || match row.searchVector
                      case Some(vector) => db.textMatch(vector, query)
                      case None => descHit
  {
    hide Like.MatchesFold;
    var first := Either(ILike(ReferenceCol, like), VectorMatches(tq));
    var second := Both(VectorIsNull, ILike(DescriptionCol, like));
    assert Eval(second, ps, row, db) == And3(OfBool(row.searchVector.None?), OfBool(descHit));
    assert Eval(VectorMatches(tq), ps, row, db)
        == if row.searchVector.None? then Unknown else OfBool(db.textMatch(row.searchVector.value, query));
    assert Eval(first, ps, row, db)
        == Or3(OfBool(refHit), Eval(VectorMatches(tq), ps, row, db));
    assert Eval(Either(first, second), ps, row, db) == Or3(Eval(first, ps, row, db), Eval(second, ps, row, db));
  }

  lemma PatternEvals(column: Column, v: string, like: string, ps: Params, row: Row, db: Db)
    requires ColumnValue(column, row).Some?
    requires like in ps && ps[like] == One(Like.Wrap(Like.Escape(v)))
    ensures Eval(ILike(column, like), ps, row, db) == OfBool(OccursFold(v, ColumnValue(column, row).value))
  {
    Like.EscapedMatchesOccurrencesFold(ColumnValue(column, row).value, v);
  }

  lemma TextClauseReads(v: string, n: nat, ps: Params, row: Row, db: Db)
    requires Includes(ps, CompileText(v, n).bindings)
    ensures Eval(CompileText(v, n).cond, ps, row, db) == True <==> TextReads(v, row, db)
  {
    hide PrefixQuery, OccursFold, Like.MatchesFold, Like.Wrap, Like.Escape;
    var c := CompileText(v, n);
    var like, tq := ParamName(n), ParamName(n + 1);
    if like == tq {
      ParamNameInjective(n, n + 1);
    }
    assert like in c.bindings && ps[like] == One(Like.Wrap(Like.Escape(v)));
    PatternEvals(ReferenceCol, v, like, ps, row, db);
    PatternEvals(DescriptionCol, v, like, ps, row, db);
    if PrefixQuery(v) != "" {
      assert tq in c.bindings;
      SearchCondition(like, tq, PrefixQuery(v), ps, row, db,
                      OccursFold(v, row.referenceNo), OccursFold(v, row.description));
    }
  }

  lemma LabelIn(labels: set<string>, vs: seq<string>)
    ensures SomeLabelIn(labels, LowerAll(vs))
       <==> exists k :: 0 <= k < |vs| && exists l :: l in labels && Lower(l) == Lower(vs[k])
  {
    var lows := LowerAll(vs);
    if SomeLabelIn(labels, lows) {
      var l :| l in labels && Lower(l) in lows;
      var k :| 0 <= k < |lows| && lows[k] == Lower(l);
      assert Lower(l) == Lower(vs[k]);
    }
    if k :| 0 <= k < |vs| && exists l :: l in labels && Lower(l) == Lower(vs[k]) {
      var l :| l in labels && Lower(l) == Lower(vs[k]);
      assert Lower(l) == lows[k];
    }
  }

  lemma LabelReads(f: Filter, n: nat, me: string, ps: Params, row: Row, db: Db)
    requires WellTyped(f) && f.field == Label
    requires Includes(ps, Compile(f, n, me).bindings)
    ensures Eval(Compile(f, n, me).cond, ps, row, db) == True <==> Reads(f, row, me, db)
  {
    hide SomeLabelIn;
    assert ParamName(n) in Compile(f, n, me).bindings;
    LabelIn(row.labels, f.values);
    assert forall k :: 0 <= k < |f.values| ==>
      (ListedIs(Label, f.values[k], row, me) <==> exists l :: l in row.labels && Lower(l) == Lower(f.values[k]));
  }

  lemma ColumnReads(f: Filter, n: nat, me: string, ps: Params, row: Row, db: Db)
    requires WellTyped(f) && f.field in {Status, Priority, Platform}
    requires Includes(ps, Compile(f, n, me).bindings)
    ensures Eval(Compile(f, n, me).cond, ps, row, db) == True <==> Reads(f, row, me, db)
  {
    var vs := if f.field == Platform then LowerAll(f.values) else f.values;
    var o := Plain(if f.field == Status then StatusCol
                   else if f.field == Priority then PriorityCol
                   else PlatformKeyCol);
    MembershipReads(o, f, vs, n, ps, row, db);
    var got := OperandValue(o, row).value;
    assert got in vs <==> exists k :: 0 <= k < |vs| && got == vs[k];
    assert got in vs <==> exists k :: 0 <= k < |f.values| && ListedIs(f.field, f.values[k], row, me);
  }

  /** One compiled clause means its filter, in any parameter map that keeps the
      clause's own bindings. */
  lemma ClauseReads(f: Filter, n: nat, me: string, ps: Params, row: Row, db: Db)
    requires WellTyped(f)
    requires Includes(ps, Compile(f, n, me).bindings)
    ensures Eval(Compile(f, n, me).cond, ps, row, db) == True <==> Reads(f, row, me, db)
  {
    match f.field
    case Status | Priority | Platform => ColumnReads(f, n, me, ps, row, db);
    case Assignee => AssigneeReads(f, n, me, ps, row, db);
    case Reporter => ReporterReads(f, n, me, ps, row, db);
    case Label => LabelReads(f, n, me, ps, row, db);
    case Created | Updated => assert ParamName(n) in Compile(f, n, me).bindings;
    case Text => TextClauseReads(f.values[0], n, ps, row, db);
  }

  // ---- The whole query -----------------------------------------------------

  lemma SelectsOne(c: Cond, ps: Params, row: Row, db: Db)
    ensures Selects([c], ps, row, db) <==> Eval(c, ps, row, db) == True
  {
    hide Eval;
    assert [c][0] == c;
  }

  lemma ReadsAllSplit(fs: seq<Filter>, row: Row, me: string, db: Db)
    requires fs != [] && AllTyped(fs)
    ensures ReadsAll(fs, row, me, db) <==> Reads(fs[0], row, me, db) && ReadsAll(fs[1..], row, me, db)
  {
    hide Reads;
    assert forall k :: 1 <= k < |fs| ==> fs[k] == fs[1..][k - 1];
  }

  /** Apart from each other, the first clause's bindings and the later ones are all
      there. */
  lemma BindingsSplit(fs: seq<Filter>, n: nat, me: string, ps: Params)
    requires fs != [] && AllTyped(fs) && Includes(ps, Bindings(fs, n, me))
    ensures AllTyped(fs[1..])
    ensures var c := Compile(fs[0], n, me);
            && Includes(ps, c.bindings) && Includes(ps, Bindings(fs[1..], n + c.used, me))
            && Clauses(fs, n, me) == [c.cond] + Clauses(fs[1..], n + c.used, me)
  {
    hide Compile;
    var c := Compile(fs[0], n, me);
    LaterNamesDiffer(fs[0], fs[1..], n, me);
    assert Bindings(fs, n, me) == c.bindings + Bindings(fs[1..], n + c.used, me);
  }

  lemma NoClauses(fs: seq<Filter>, n: nat, me: string, ps: Params, row: Row, db: Db)
    requires fs == []
    ensures AllTyped(fs) && Selects(Clauses(fs, n, me), ps, row, db) && ReadsAll(fs, row, me, db)
  {
    hide Compile, Reads, Eval;
  }

  lemma {:induction false} ClausesRead(fs: seq<Filter>, n: nat, me: string, ps: Params, row: Row, db: Db)
    requires AllTyped(fs)
    requires Includes(ps, Bindings(fs, n, me))
    ensures Selects(Clauses(fs, n, me), ps, row, db) <==> ReadsAll(fs, row, me, db)
  {
    hide Compile, Reads, Eval, Selects, ReadsAll, Includes, Clauses, Bindings;
    if fs == [] {
      NoClauses(fs, n, me, ps, row, db);
    } else {
      BindingsSplit(fs, n, me, ps);
      var c := Compile(fs[0], n, me);
      var rest := fs[1..];
      ClauseReads(fs[0], n, me, ps, row, db);
      ClausesRead(rest, n + c.used, me, ps, row, db);
      SelectsConcat([c.cond], Clauses(rest, n + c.used, me), ps, row, db);
      SelectsOne(c.cond, ps, row, db);
      ReadsAllSplit(fs, row, me, db);
    }
  }

  function Mentions(c: Cond): set<string> {
    match c
    case Equal(_, p) => {p}
    case NotEqual(_, p) => {p}
    case InList(_, p) => {p}
    case ILike(_, p) => {p}
    case AtLeast(_, p) => {p}
    case AtMost(_, p) => {p}
    case HasLabelIn(p) => {p}
    case VectorMatches(p) => {p}
    case IsNull(_) | IsNotNull(_) | VectorIsNull => {}
    case Both(a, b) => Mentions(a) + Mentions(b)
    case Either(a, b) => Mentions(a) + Mentions(b)
    case Negated(a) => Mentions(a)
  }

  lemma {:induction false} EvalFrame(c: Cond, ps: Params, qs: Params, row: Row, db: Db)
    requires forall name <- Mentions(c) :: (name in ps <==> name in qs) && (name in ps ==> ps[name] == qs[name])
    ensures Eval(c, ps, row, db) == Eval(c, qs, row, db)
  {
    match c
    case Both(a, b) => EvalFrame(a, ps, qs, row, db); EvalFrame(b, ps, qs, row, db);
    case Either(a, b) => EvalFrame(a, ps, qs, row, db); EvalFrame(b, ps, qs, row, db);
    case Negated(a) => EvalFrame(a, ps, qs, row, db);
    case _ =>
  }

  /** A query whose clauses mention no generated name: what the filters are
      added to, and what is added after them. */
  ghost predicate HandWritten(conds: seq<Cond>) {
    forall k, name :: 0 <= k < |conds| && name in Mentions(conds[k]) ==> !Generated(name, 0)
  }

  lemma HandWrittenFrame(conds: seq<Cond>, ps: Params, fs: seq<Filter>, me: string, row: Row, db: Db)
    requires HandWritten(conds) && AllTyped(fs)
    ensures Selects(conds, ps, row, db) <==> Selects(conds, ps + Bindings(fs, 0, me), row, db)
  {
    hide Compile;
    var qs := ps + Bindings(fs, 0, me);
    BindingNames(fs, 0, me);
    forall k | 0 <= k < |conds| ensures Eval(conds[k], ps, row, db) == Eval(conds[k], qs, row, db) {
      forall name | name in Mentions(conds[k])
        ensures (name in ps <==> name in qs) && (name in ps ==> ps[name] == qs[name])
      {
        assert !Generated(name, 0);
      }
      EvalFrame(conds[k], ps, qs, row, db);
    }
  }

  /** The state a query is in after the filters were applied to it. */
  ghost predicate AppliedTo(conds0: seq<Cond>, ps0: Params, fs: seq<Filter>, me: string, conds: seq<Cond>, ps: Params)
    requires AllTyped(fs)
  {
    conds == conds0 + Clauses(fs, 0, me) && ps == ps0 + Bindings(fs, 0, me)
  }

  /** Main theorem. Applied to a query, the filters select exactly those of its
      rows that satisfy the plain reading of every filter, so they only narrow. */
  lemma FiltersMeanWhatTheySay(conds0: seq<Cond>, ps0: Params, fs: seq<Filter>, me: string,
                               conds: seq<Cond>, ps: Params, row: Row, db: Db)
    requires AllTyped(fs) && HandWritten(conds0)
    requires AppliedTo(conds0, ps0, fs, me, conds, ps)
    ensures Selects(conds, ps, row, db) <==> Selects(conds0, ps0, row, db) && ReadsAll(fs, row, me, db)
  {
    hide Compile, Reads, Eval;
    var added := Clauses(fs, 0, me);
    HandWrittenFrame(conds0, ps0, fs, me, row, db);
    ClausesRead(fs, 0, me, ps, row, db);
    SelectsConcat(conds0, added, ps, row, db);
  }

  lemma SelectsConcat(a: seq<Cond>, b: seq<Cond>, ps: Params, row: Row, db: Db)
    ensures Selects(a + b, ps, row, db) <==> Selects(a, ps, row, db) && Selects(b, ps, row, db)
  {
    hide Eval;
    var c := a + b;
    if Selects(c, ps, row, db) {
      forall k | 0 <= k < |a| ensures Eval(a[k], ps, row, db) == True { assert c[k] == a[k]; }
      forall k | 0 <= k < |b| ensures Eval(b[k], ps, row, db) == True { assert c[|a| + k] == b[k]; }
    }
  }

  // ---- Operators against each other ----------------------------------------

  function WithOp(f: Field, op: JqlOp, v: string): Filter { Filter(f, op, [v]) }

  /** The truth of one filter compiled on its own. */
  function Alone(f: Filter, me: string, row: Row, db: Db): Truth
    requires f.values != []
  {
    Eval(Compile(f, 0, me).cond, Compile(f, 0, me).bindings, row, db)
  }

  lemma AloneReads(f: Filter, me: string, row: Row, db: Db)
    requires WellTyped(f)
    ensures Alone(f, me, row, db) == True <==> Reads(f, row, me, db)
  {
    ClauseReads(f, 0, me, Compile(f, 0, me).bindings, row, db);
  }

  /** `=` and `!=` partition the rows: exactly one of the two clauses is TRUE,
      even for a row with nobody assigned. */
  lemma EqualityPartitions(f: Field, v: string, me: string, row: Row, db: Db)
    requires Allows(f, Eq) && Allows(f, Neq)
    ensures Alone(WithOp(f, Eq, v), me, row, db) == True <==> Alone(WithOp(f, Neq, v), me, row, db) != True
  {
    AloneReads(WithOp(f, Eq, v), me, row, db);
    AloneReads(WithOp(f, Neq, v), me, row, db);
  }

  predicate IsSentinel(f: Field, v: string) {
    f == Assignee && (Lower(v) == "me" || Lower(v) == "unassigned")
  }

  ghost predicate InIsDisjunction(f: Field, vs: seq<string>, me: string, db: Db)
    requires vs != []
  {
    forall row: Row ::
      Alone(Filter(f, In, vs), me, row, db) == True
      <==> exists k :: 0 <= k < |vs| && Alone(WithOp(f, Eq, vs[k]), me, row, db) == True
  }

  lemma InReadsAsDisjunction(f: Field, vs: seq<string>, me: string, row: Row, db: Db)
    requires vs != [] && Allows(f, In)
    requires forall k :: 0 <= k < |vs| ==> !IsSentinel(f, vs[k])
    ensures Alone(Filter(f, In, vs), me, row, db) == True
       <==> exists k :: 0 <= k < |vs| && Alone(WithOp(f, Eq, vs[k]), me, row, db) == True
  {
    AloneReads(Filter(f, In, vs), me, row, db);
    forall k | 0 <= k < |vs|
      ensures Alone(WithOp(f, Eq, vs[k]), me, row, db) == True <==> ListedIs(f, vs[k], row, me)
    {
      AloneReads(WithOp(f, Eq, vs[k]), me, row, db);
    }
  }

  /** `IN (...)` is the disjunction of `=` exactly when no listed value is one of
      the assignee sentinels, which IN takes for names. */
  lemma InIsDisjunctionIffNoSentinel(f: Field, vs: seq<string>, me: string, db: Db)
    requires vs != [] && Allows(f, In)
    ensures InIsDisjunction(f, vs, me, db) <==> forall k :: 0 <= k < |vs| ==> !IsSentinel(f, vs[k])
  {
    if k :| 0 <= k < |vs| && IsSentinel(f, vs[k]) {
      // A person no listed value names, yet who is `me`; or nobody at all.
      var row := Row("", "", "", "", if Lower(vs[k]) == "me" then Some(Person(me, Unlisted(vs))) else None,
                     "", "", {}, 0, 0, "", "", None);
      UnlistedIsNew(vs);
      AloneReads(Filter(f, In, vs), me, row, db);
      AloneReads(WithOp(f, Eq, vs[k]), me, row, db);
      assert Alone(WithOp(f, Eq, vs[k]), me, row, db) == True;
      assert forall j :: 0 <= j < |vs| ==> !ListedIs(f, vs[j], row, me);
    } else {
      forall row: Row
        ensures Alone(Filter(f, In, vs), me, row, db) == True
           <==> exists k :: 0 <= k < |vs| && Alone(WithOp(f, Eq, vs[k]), me, row, db) == True
      {
        InReadsAsDisjunction(f, vs, me, row, db);
      }
    }
  }

  /** A name longer than every value listed. */
  function Unlisted(vs: seq<string>): string {
    if vs == [] then "x" else vs[0] + Unlisted(vs[1..])
  }

  lemma {:induction false} UnlistedIsNew(vs: seq<string>)
    ensures |Unlisted(vs)| > 0
    ensures forall k :: 0 <= k < |vs| ==> |Unlisted(vs)| > |vs[k]|
  {
    if vs != [] {
      UnlistedIsNew(vs[1..]);
      assert forall k :: 1 <= k < |vs| ==> vs[k] == vs[1..][k - 1];
    }
  }

  // ---- People matched by `~` -----------------------------------------------

  // `assignee ~ v` and `reporter ~ v` wrap the value without escaping it.

  ghost predicate AssigneesMatchByOccurrence(v: string, me: string, db: Db) {
    forall row: Row ::
      Alone(WithOp(Assignee, Tilde, v), me, row, db) == True
      <==> row.assignee.Some? && OccursFold(v, row.assignee.value.name)
  }

  ghost predicate ReportersMatchByOccurrence(v: string, me: string, db: Db) {
    forall row: Row ::
      Alone(WithOp(Reporter, Tilde, v), me, row, db) == True
      <==> OccursFold(v, row.reporterName) || OccursFold(v, row.reporterEmail)
  }

  lemma AssigneesMatchIffNoMeta(v: string, me: string, db: Db)
    ensures AssigneesMatchByOccurrence(v, me, db) <==> Like.HasNoMeta(v)
  {
    Like.UnescapedIsExactIffNoMeta(v);
    var f := WithOp(Assignee, Tilde, v);
    if Like.HasNoMeta(v) {
      forall row: Row
        ensures Alone(f, me, row, db) == True <==> row.assignee.Some? && OccursFold(v, row.assignee.value.name)
      {
        AloneReads(f, me, row, db);
      }
    } else {
      var name :| !(Like.MatchesFold(name, Like.Wrap(v)) <==> OccursFold(v, name));
      var row := Row("", "", "", "", Some(Person(me, name)), "", "", {}, 0, 0, "", "", None);
      AloneReads(f, me, row, db);
    }
  }

  lemma ReportersMatchIffNoMeta(v: string, me: string, db: Db)
    ensures ReportersMatchByOccurrence(v, me, db) <==> Like.HasNoMeta(v)
  {
    Like.UnescapedIsExactIffNoMeta(v);
    var f := WithOp(Reporter, Tilde, v);
    if Like.HasNoMeta(v) {
      forall row: Row
        ensures Alone(f, me, row, db) == True <==> OccursFold(v, row.reporterName) || OccursFold(v, row.reporterEmail)
      {
        AloneReads(f, me, row, db);
      }
    } else {
      var name :| !(Like.MatchesFold(name, Like.Wrap(v)) <==> OccursFold(v, name));
      var row := Row("", "", "", "", None, name, name, {}, 0, 0, "", "", None);
      AloneReads(f, me, row, db);
    }
  }

  /** Both read as "the name, or for reporters the address, contains v" exactly when
      v has no '%', '_' or backslash; text search escapes and needs no such
      condition. */
  lemma PeopleMatchIffNoMeta(v: string, me: string, db: Db)
    ensures AssigneesMatchByOccurrence(v, me, db) <==> Like.HasNoMeta(v)
    ensures ReportersMatchByOccurrence(v, me, db) <==> Like.HasNoMeta(v)
  {
    AssigneesMatchIffNoMeta(v, me, db);
    ReportersMatchIffNoMeta(v, me, db);
  }
}

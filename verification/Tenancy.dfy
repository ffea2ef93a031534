/**
 The fail-closed tenancy middleware: how it rewrites the arguments of a database call, and what a
 rewritten call can see and change.

 A key that is absent stands for `undefined`. A table is the list of the rows of one tenant-scoped
 model, and the meaning of a `where` is that of the in-memory database of the test suite.
 */
module Tenancy {
  import opened Options

  type Field = string
  datatype Value = Null | Text(text: string) | Number(number: int)
  type Row = map<Field, Value>
  type Record = map<Field, Value>
  type Table = seq<Row>

  const TENANT: Field := "tenantId"

  datatype Condition = Is(value: Value) | OneOf(values: seq<Value>) | AtLeast(least: int)

  /** Column conditions, the parts of AND, the parts of OR if there is one, and a NOT if there is one. */
  datatype Where = Where(fields: map<Field, Condition>, conj: seq<Where>, disj: Alternatives, neg: Option<Where>)
  datatype Alternatives = NoOr | AnyOf(options: seq<Where>)

  predicate Holds(row: Row, f: Field, c: Condition) {
    f in row &&
    match c
    case Is(v) => row[f] == v
    case OneOf(vs) => row[f] in vs
    case AtLeast(n) => row[f].Number? && row[f].number >= n
  }

  predicate Matches(row: Row, w: Where)
    decreases w
  {
    && (forall f :: f in w.fields ==> Holds(row, f, w.fields[f]))
    && (forall i :: 0 <= i < |w.conj| ==> Matches(row, w.conj[i]))
    && (w.disj.AnyOf? ==> exists i :: 0 <= i < |w.disj.options| && Matches(row, w.disj.options[i]))
    && (w.neg.Some? ==> !Matches(row, w.neg.value))
  }

  const Everything := Where(map[], [], NoOr, None)

  // ---------------------------------------------------------------- calls and their meaning

  /** `Read` stands for findFirst, findMany, count, aggregate and groupBy, which compute something
      from the rows selected. `Raw` is any action the middleware does not know. */
  datatype Action = Read | UpdateMany | DeleteMany | Create | CreateMany | Upsert | FindUnique | Update | Delete | Raw

  datatype Data = One(record: Record) | Many(records: seq<Record>)
  datatype Args = Args(where: Option<Where>, data: Option<Data>, create: Option<Record>, update: Option<Record>)
  datatype Call = Call(action: Action, args: Args)
  {
    function Filter(): Where { args.where.OrElse(Everything) }
    function Patch(): Record { if args.data.Some? && args.data.value.One? then args.data.value.record else map[] }
    function Records(): seq<Record> {
      match args.data
      case None => [map[]]
      case Some(One(r)) => [r]
      case Some(Many(rs)) => rs
    }
  }

  predicate WhereAction(a: Action) { a.Read? || a.UpdateMany? || a.DeleteMany? }
  predicate DataAction(a: Action) { a.Create? || a.CreateMany? }
  predicate Guarded(a: Action) { WhereAction(a) || DataAction(a) || a.Upsert? }

  function Select(db: Table, w: Where): Table {
    if db == [] then [] else (if Matches(db[0], w) then [db[0]] else []) + Select(db[1..], w)
  }

  function UpdateAll(db: Table, w: Where, patch: Record): Table {
    if db == [] then [] else [if Matches(db[0], w) then db[0] + patch else db[0]] + UpdateAll(db[1..], w, patch)
  }

  function DeleteAll(db: Table, w: Where): Table {
    if db == [] then [] else (if Matches(db[0], w) then [] else [db[0]]) + DeleteAll(db[1..], w)
  }

  /** The first match, as a unique lookup finds it, patched in place. */
  function UpdateFirst(db: Table, w: Where, patch: Record): Table {
    if db == [] then []
    else if Matches(db[0], w) then [db[0] + patch] + db[1..]
    else [db[0]] + UpdateFirst(db[1..], w, patch)
  }

  function DeleteFirst(db: Table, w: Where): Table {
    if db == [] then [] else if Matches(db[0], w) then db[1..] else [db[0]] + DeleteFirst(db[1..], w)
  }

  function First(rows: Table): Table {
    if rows == [] then [] else rows[..1]
  }

  datatype Answer = Rows(rows: Table) | Affected(count: nat)

  /** What the database does with a call: its new content and what it answers. */
  function Execute(db: Table, c: Call): (Table, Answer) {
    var w := c.Filter();
    match c.action
    case Read => (db, Rows(Select(db, w)))
    case UpdateMany => (UpdateAll(db, w, c.Patch()), Affected(|Select(db, w)|))
    case DeleteMany => (DeleteAll(db, w), Affected(|Select(db, w)|))
    case Create => (db + c.Records(), Rows(c.Records()))
    case CreateMany => (db + c.Records(), Affected(|c.Records()|))
    case Upsert =>
      var found, patch, record := Select(db, w), c.args.update.OrElse(map[]), c.args.create.OrElse(map[]);
      if found != [] then (UpdateFirst(db, w, patch), Rows([found[0] + patch])) else (db + [record], Rows([record]))
    case FindUnique => (db, Rows(First(Select(db, w))))
    case Update => (UpdateFirst(db, w, c.Patch()), Rows(First(Select(db, w))))
    case Delete => (DeleteFirst(db, w), Rows(First(Select(db, w))))
    case Raw => (db, Rows(db))
  }

  // ---------------------------------------------------------------- the middleware

  datatype Context = Context(scopedModel: bool, bypass: bool, httpTenant: Option<string>)
  {
    predicate Enforced() { scopedModel && !bypass }
    predicate HasTenant() { httpTenant.Some? && httpTenant.value != "" }
  }

  datatype Outcome = Next(call: Call) | MissingTenant

  function WithTenant(r: Record, t: string): Record {
    if TENANT in r then r else r[TENANT := Text(t)]
  }

  function AllWithTenant(rs: seq<Record>, t: string): seq<Record> {
    seq(|rs|, i requires 0 <= i < |rs| => WithTenant(rs[i], t))
  }

  function WhereWithTenant(w: Where, t: string): Where {
    if TENANT in w.fields then w else w.(fields := w.fields[TENANT := Is(Text(t))])
  }

  /** Some place where the middleware looks for a tenant id has none. */
  predicate LacksTenant(c: Call) {
    if WhereAction(c.action) then TENANT !in c.Filter().fields
    else if DataAction(c.action) then exists i :: 0 <= i < |c.Records()| && TENANT !in c.Records()[i]
    else if c.action.Upsert? then
      TENANT !in c.Filter().fields || TENANT !in c.args.create.OrElse(map[]) || TENANT !in c.args.update.OrElse(map[])
    else false
  }

  function Completed(c: Call, t: string): Call {
    if WhereAction(c.action) then
      c.(args := c.args.(where := Some(WhereWithTenant(c.Filter(), t))))
    else if DataAction(c.action) then
      c.(args := c.args.(data := Some(
        if c.args.data.Some? && c.args.data.value.Many? then
          Many(AllWithTenant(c.Records(), t))
        else
          One(WithTenant(c.Records()[0], t)))))
    else if c.action.Upsert? then
      c.(args := c.args.(where := Some(WhereWithTenant(c.Filter(), t)),
                         create := Some(WithTenant(c.args.create.OrElse(map[]), t)),
                         update := Some(WithTenant(c.args.update.OrElse(map[]), t))))
    else c
  }

  function Intercept(ctx: Context, c: Call): Outcome {
    if !ctx.Enforced() || !LacksTenant(c) then Next(c)
    else if !ctx.HasTenant() then MissingTenant
    else Next(Completed(c, ctx.httpTenant.value))
  }

  // ---------------------------------------------------------------- the rewrite keeps the meaning

  predicate Owned(row: Row, t: string) { TENANT in row && row[TENANT] == Text(t) }

  /** The tenant's own rows, and everybody else's. */
  function Of(db: Table, t: string): Table {
    if db == [] then [] else (if Owned(db[0], t) then [db[0]] else []) + Of(db[1..], t)
  }

  function Others(db: Table, t: string): Table {
    if db == [] then [] else (if Owned(db[0], t) then [] else [db[0]]) + Others(db[1..], t)
  }

  lemma CompletedWhere(row: Row, w: Where, t: string)
    requires TENANT !in w.fields
    ensures Matches(row, WhereWithTenant(w, t)) <==> Matches(row, w) && Owned(row, t)
  {
    var w' := WhereWithTenant(w, t);
    if Matches(row, w') {
      forall f | f in w.fields
        ensures Holds(row, f, w.fields[f])
      {
        assert f in w'.fields;
      }
      assert TENANT in w'.fields;
    }
  }

  /** A query that names no tenant selects, once rewritten, exactly the rows its own `where` selects
      among the context tenant's rows. */
  lemma {:induction false} RewriteRestricts(db: Table, ctx: Context, c: Call)
    requires ctx.Enforced() && ctx.HasTenant()
    requires WhereAction(c.action) && TENANT !in c.Filter().fields
    ensures Intercept(ctx, c).Next?
    ensures Select(db, Intercept(ctx, c).call.Filter()) == Of(Select(db, c.Filter()), ctx.httpTenant.value)
    ensures Select(db, Intercept(ctx, c).call.Filter()) == Select(Of(db, ctx.httpTenant.value), c.Filter())
  {
    if db != [] {
      var t := ctx.httpTenant.value;
      RewriteRestricts(db[1..], ctx, c);
      CompletedWhere(db[0], c.Filter(), t);
      OfConcat(if Matches(db[0], c.Filter()) then [db[0]] else [], Select(db[1..], c.Filter()), t);
      SelectConcat(if Owned(db[0], t) then [db[0]] else [], Of(db[1..], t), c.Filter());
    }
  }

  lemma {:induction false} OfConcat(a: Table, b: Table, t: string)
    ensures Of(a + b, t) == Of(a, t) + Of(b, t)
  {
    if a == [] {
      assert a + b == b;
    } else {
      assert (a + b)[0] == a[0] && (a + b)[1..] == a[1..] + b;
      OfConcat(a[1..], b, t);
    }
  }

  lemma {:induction false} OthersConcat(a: Table, b: Table, t: string)
    ensures Others(a + b, t) == Others(a, t) + Others(b, t)
  {
    if a == [] {
      assert a + b == b;
    } else {
      assert (a + b)[0] == a[0] && (a + b)[1..] == a[1..] + b;
      OthersConcat(a[1..], b, t);
    }
  }

  lemma {:induction false} SelectConcat(a: Table, b: Table, w: Where)
    ensures Select(a + b, w) == Select(a, w) + Select(b, w)
  {
    if a == [] {
      assert a + b == b;
    } else {
      assert (a + b)[0] == a[0] && (a + b)[1..] == a[1..] + b;
      SelectConcat(a[1..], b, w);
    }
  }

  /** Rewriting a rewritten call changes nothing. */
  lemma RewriteIsIdempotent(ctx: Context, c: Call)
    requires Intercept(ctx, c).Next?
    ensures Intercept(ctx, Intercept(ctx, c).call) == Intercept(ctx, c)
    ensures ctx.Enforced() ==> !LacksTenant(Intercept(ctx, c).call)
  {
  }

  /** Where a call of each kind must name its tenant, and does not. */
  ghost predicate NamesNoTenant(c: Call) {
    match c.action
    case Read | UpdateMany | DeleteMany => "tenantId" !in c.Filter().fields
    case Create | CreateMany => exists r :: r in c.Records() && "tenantId" !in r
    case Upsert =>
      || "tenantId" !in c.Filter().fields
      || "tenantId" !in c.args.create.OrElse(map[]) || "tenantId" !in c.args.update.OrElse(map[])
    case FindUnique | Update | Delete | Raw => false
  }

  /** Calls on models without tenants, and calls made under a bypass, are passed on as they are. */
  lemma UnenforcedPassesUnchanged(ctx: Context, c: Call)
    requires !ctx.scopedModel || ctx.bypass
    ensures Intercept(ctx, c) == Next(c)
  {
  }

  /** Two wheres, or two records, that differ in the tenant id at most, and agree if the first has one. */
  predicate TenantAdded(w: Where, w': Where) {
    && w'.conj == w.conj && w'.disj == w.disj && w'.neg == w.neg && w'.fields - {"tenantId"} == w.fields - {"tenantId"}
    && ("tenantId" in w.fields ==> w' == w)
  }

  predicate TenantSet(r: Record, r': Record) {
    r' - {"tenantId"} == r - {"tenantId"} && ("tenantId" in r ==> r' == r)
  }

  /** The rewrite adds a tenant id where there is none, and changes nothing else of a call. */
  lemma RewriteAddsOnlyTenant(ctx: Context, c: Call)
    requires Intercept(ctx, c).Next?
    ensures var c' := Intercept(ctx, c).call;
            && c'.action == c.action && TenantAdded(c.Filter(), c'.Filter())
            && |c'.Records()| == |c.Records()|
            && (forall i :: 0 <= i < |c.Records()| ==> TenantSet(c.Records()[i], c'.Records()[i]))
            && TenantSet(c.args.create.OrElse(map[]), c'.args.create.OrElse(map[]))
            && TenantSet(c.args.update.OrElse(map[]), c'.args.update.OrElse(map[]))
            && (!DataAction(c.action) ==> c'.args.data == c.args.data)
  {
  }

  /** Fail closed: an enforced call is stopped exactly when it lacks a tenant id and the request has
      none to give; and a guarded call that gets through names a tenant in every place. */
  lemma FailsClosed(ctx: Context, c: Call)
    ensures Intercept(ctx, c).MissingTenant? <==>
            && ctx.scopedModel && !ctx.bypass && NamesNoTenant(c)
            && (ctx.httpTenant.None? || ctx.httpTenant.value == "")
    ensures ctx.Enforced() && Guarded(c.action) && Intercept(ctx, c).Next? ==> !LacksTenant(Intercept(ctx, c).call)
    ensures !LacksTenant(c) ==> Intercept(ctx, c) == Next(c)
  {
    if Intercept(ctx, c).Next? {
      RewriteIsIdempotent(ctx, c);
    }
  }

  // ---------------------------------------------------------------- non-interference

  predicate NamesIn(w: Where, t: string) { TENANT in w.fields && w.fields[TENANT] == Is(Text(t)) }
  predicate KeepsIn(patch: Record, t: string) { TENANT in patch ==> patch[TENANT] == Text(t) }

  /** Some row of another tenant, or of none, could match. */
  ghost predicate MatchesOutside(w: Where, t: string) { exists row: Row :: Matches(row, w) && !Owned(row, t) }
  ghost predicate MatchesInside(w: Where, t: string) { exists row: Row :: Matches(row, w) && Owned(row, t) }

  /** No row outside the tenant can match, and a row inside that can is not moved by the patch. */
  ghost predicate Patches(w: Where, patch: Record, t: string) {
    !MatchesOutside(w, t) && (MatchesInside(w, t) ==> KeepsIn(patch, t))
  }

  /** What a call must be like to stay inside the tenant whatever the database holds. */
  ghost predicate Sound(c: Call, t: string) {
    match c.action
    case Read | DeleteMany | FindUnique | Delete => !MatchesOutside(c.Filter(), t)
    case UpdateMany | Update => Patches(c.Filter(), c.Patch(), t)
    case Create | CreateMany => forall i :: 0 <= i < |c.Records()| ==> Owned(c.Records()[i], t)
    case Upsert => Patches(c.Filter(), c.args.update.OrElse(map[]), t) && Owned(c.args.create.OrElse(map[]), t)
    case Raw => false
  }

  /** What the caller wrote agrees with `t`: tenant ids left out or equal to it, and no update that
      moves rows to another tenant. */
  ghost predicate Agrees(c: Call, t: string) {
    if WhereAction(c.action) then
      (TENANT in c.Filter().fields ==> NamesIn(c.Filter(), t)) && (c.action.UpdateMany? ==> KeepsIn(c.Patch(), t))
    else if DataAction(c.action) then
      forall i :: 0 <= i < |c.Records()| ==> KeepsIn(c.Records()[i], t)
    else
      && (TENANT in c.Filter().fields ==> NamesIn(c.Filter(), t))
      && KeepsIn(c.args.create.OrElse(map[]), t)
      && KeepsIn(c.args.update.OrElse(map[]), t)
  }

  lemma NamedRowsAreOwned(w: Where, t: string)
    requires NamesIn(w, t)
    ensures !MatchesOutside(w, t)
  {
    forall row: Row | Matches(row, w)
      ensures Owned(row, t)
    {
      assert TENANT in w.fields;
    }
  }

  /** The rewrite makes every guarded call sound whose own tenant ids agree with the context. */
  lemma RewriteIsSound(ctx: Context, c: Call)
    requires ctx.Enforced() && ctx.HasTenant()
    requires !c.action.FindUnique? && !c.action.Update? && !c.action.Delete? && !c.action.Raw?
    requires Agrees(c, ctx.httpTenant.value)
    ensures Intercept(ctx, c).Next? && Sound(Intercept(ctx, c).call, ctx.httpTenant.value)
  {
    var t := ctx.httpTenant.value;
    var c' := Intercept(ctx, c).call;
    if DataAction(c.action) {
      assert |c'.Records()| == |c.Records()|;
      forall i | 0 <= i < |c.Records()|
        ensures Owned(c'.Records()[i], t)
      {
      }
    } else {
      NamedRowsAreOwned(c'.Filter(), t);
    }
  }

  lemma {:induction false} SelectIsLocal(db: Table, w: Where, t: string)
    requires !MatchesOutside(w, t)
    ensures Select(db, w) == Select(Of(db, t), w)
  {
    if db != [] {
      SelectIsLocal(db[1..], w, t);
      assert Matches(db[0], w) ==> Owned(db[0], t);
      SelectConcat(if Owned(db[0], t) then [db[0]] else [], Of(db[1..], t), w);
    }
  }

  /** One row more in front. */
  lemma OfCons(row: Row, rest: Table, t: string)
    ensures Of([row] + rest, t) == if Owned(row, t) then [row] + Of(rest, t) else Of(rest, t)
    ensures Others([row] + rest, t) == if Owned(row, t) then Others(rest, t) else [row] + Others(rest, t)
  {
    assert ([row] + rest)[1..] == rest;
    assert [] + Of(rest, t) == Of(rest, t) && [] + Others(rest, t) == Others(rest, t);
  }

  lemma UpdateAllCons(row: Row, rest: Table, w: Where, patch: Record)
    ensures UpdateAll([row] + rest, w, patch) ==
            [if Matches(row, w) then row + patch else row] + UpdateAll(rest, w, patch)
    ensures UpdateFirst([row] + rest, w, patch) ==
            if Matches(row, w) then [row + patch] + rest else [row] + UpdateFirst(rest, w, patch)
  {
    assert ([row] + rest)[1..] == rest;
  }

  lemma DeleteAllCons(row: Row, rest: Table, w: Where)
    ensures DeleteAll([row] + rest, w) == if Matches(row, w) then DeleteAll(rest, w) else [row] + DeleteAll(rest, w)
  {
    assert ([row] + rest)[1..] == rest;
    assert [] + DeleteAll(rest, w) == DeleteAll(rest, w);
  }

  lemma DeleteFirstCons(row: Row, rest: Table, w: Where)
    ensures DeleteFirst([row] + rest, w) == if Matches(row, w) then rest else [row] + DeleteFirst(rest, w)
  {
    assert ([row] + rest)[1..] == rest;
  }

  lemma {:induction false} UpdateIsLocal(db: Table, w: Where, patch: Record, t: string)
    requires Patches(w, patch, t)
    ensures Of(UpdateAll(db, w, patch), t) == UpdateAll(Of(db, t), w, patch)
    ensures Others(UpdateAll(db, w, patch), t) == Others(db, t)
  {
    if db != [] {
      var row, rest := db[0], db[1..];
      assert db == [row] + rest;
      UpdateIsLocal(rest, w, patch, t);
      assert Matches(row, w) ==> Owned(row, t);
      OfCons(row, rest, t);
      OfCons(if Matches(row, w) then row + patch else row, UpdateAll(rest, w, patch), t);
      UpdateAllCons(row, Of(rest, t), w, patch);
    }
  }

  lemma {:induction false} UpdateFirstIsLocal(db: Table, w: Where, patch: Record, t: string)
    requires Patches(w, patch, t)
    ensures Of(UpdateFirst(db, w, patch), t) == UpdateFirst(Of(db, t), w, patch)
    ensures Others(UpdateFirst(db, w, patch), t) == Others(db, t)
  {
    if db != [] {
      var row, rest := db[0], db[1..];
      assert db == [row] + rest;
      UpdateFirstIsLocal(rest, w, patch, t);
      assert Matches(row, w) ==> Owned(row, t);
      OfCons(row, rest, t);
      OfCons(row + patch, rest, t);
      OfCons(row, UpdateFirst(rest, w, patch), t);
      UpdateAllCons(row, Of(rest, t), w, patch);
    }
  }

  lemma {:induction false} DeleteIsLocal(db: Table, w: Where, t: string)
    requires !MatchesOutside(w, t)
    ensures Of(DeleteAll(db, w), t) == DeleteAll(Of(db, t), w)
    ensures Others(DeleteAll(db, w), t) == Others(db, t)
  {
    if db != [] {
      var row, rest := db[0], db[1..];
      assert db == [row] + rest;
      DeleteIsLocal(rest, w, t);
      assert Matches(row, w) ==> Owned(row, t);
      OfCons(row, rest, t);
      OfCons(row, DeleteAll(rest, w), t);
      DeleteAllCons(row, rest, w);
      DeleteAllCons(row, Of(rest, t), w);
    }
  }

  lemma {:induction false} DeleteFirstIsLocal(db: Table, w: Where, t: string)
    requires !MatchesOutside(w, t)
    ensures Of(DeleteFirst(db, w), t) == DeleteFirst(Of(db, t), w)
    ensures Others(DeleteFirst(db, w), t) == Others(db, t)
  {
    if db != [] {
      var row, rest := db[0], db[1..];
      assert db == [row] + rest;
      DeleteFirstIsLocal(rest, w, t);
      assert Matches(row, w) ==> Owned(row, t);
      OfCons(row, rest, t);
      OfCons(row, DeleteFirst(rest, w), t);
      DeleteFirstCons(row, rest, w);
      DeleteFirstCons(row, Of(rest, t), w);
    }
  }

  lemma {:induction false} OwnedRecords(records: seq<Record>, t: string)
    requires forall i :: 0 <= i < |records| ==> Owned(records[i], t)
    ensures Of(records, t) == records && Others(records, t) == []
  {
    if records != [] {
      OwnedRecords(records[1..], t);
    }
  }

  lemma InsertIsLocal(db: Table, records: seq<Record>, t: string)
    requires forall i :: 0 <= i < |records| ==> Owned(records[i], t)
    ensures Of(db + records, t) == Of(db, t) + records
    ensures Others(db + records, t) == Others(db, t)
  {
    OwnedRecords(records, t);
    OfConcat(db, records, t);
    OthersConcat(db, records, t);
  }

  /** What a call does to a table is what it does to the tenant's own rows, and to no others. */
  ghost predicate Isolated(db: Table, c: Call, t: string) {
    && Execute(db, c).1 == Execute(Of(db, t), c).1
    && Of(Execute(db, c).0, t) == Execute(Of(db, t), c).0
    && Others(Execute(db, c).0, t) == Others(db, t)
  }

  lemma SoundIsIsolated(db: Table, c: Call, t: string)
    requires Sound(c, t)
    ensures Isolated(db, c, t)
  {
    var w := c.Filter();
    match c.action {
      case Read | FindUnique => SelectIsLocal(db, w, t);
      case DeleteMany => SelectIsLocal(db, w, t); DeleteIsLocal(db, w, t);
      case Delete => SelectIsLocal(db, w, t); DeleteFirstIsLocal(db, w, t);
      case UpdateMany => SelectIsLocal(db, w, t); UpdateIsLocal(db, w, c.Patch(), t);
      case Update => SelectIsLocal(db, w, t); UpdateFirstIsLocal(db, w, c.Patch(), t);
      case Create | CreateMany => InsertIsLocal(db, c.Records(), t);
      case Upsert =>
        SelectIsLocal(db, w, t);
        UpdateFirstIsLocal(db, w, c.args.update.OrElse(map[]), t);
        InsertIsLocal(db, [c.args.create.OrElse(map[])], t);
    }
  }

  /** One row alone in the database. */
  lemma OneRow(row: Row, w: Where, patch: Record, t: string)
    ensures Of([row], t) == (if Owned(row, t) then [row] else [])
    ensures Others([row], t) == (if Owned(row, t) then [] else [row])
    ensures Select([row], w) == (if Matches(row, w) then [row] else [])
    ensures UpdateAll([row], w, patch) == [if Matches(row, w) then row + patch else row]
    ensures UpdateFirst([row], w, patch) == [if Matches(row, w) then row + patch else row]
    ensures DeleteAll([row], w) == DeleteFirst([row], w) == if Matches(row, w) then [] else [row]
  {
  }

  /** A call that can match a row outside shows it, or changes it, when it is the only row. */
  lemma ForeignMatchCrosses(row: Row, c: Call, t: string)
    requires !DataAction(c.action) && !c.action.Raw?
    requires Matches(row, c.Filter()) && !Owned(row, t)
    ensures !Isolated([row], c, t)
  {
    OneRow(row, c.Filter(), c.Patch(), t);
    if c.action.Upsert? {
      ForeignUpsertCrosses(row, c, t);
    } else {
      assert First([row]) == [row] && First([]) == [];
      assert Execute([row], c).1 != Execute([], c).1;
    }
  }

  function PatchOf(c: Call): Record { if c.action.Upsert? then c.args.update.OrElse(map[]) else c.Patch() }

  lemma PatchedRow(row: Row, c: Call)
    requires c.action.UpdateMany? || c.action.Update? || c.action.Upsert?
    requires Matches(row, c.Filter())
    ensures Execute([row], c).0 == [row + PatchOf(c)]
  {
    OneRow(row, c.Filter(), PatchOf(c), "");
  }

  lemma InsertedRow(c: Call)
    requires c.action.Upsert?
    ensures Execute([], c).0 == [c.args.create.OrElse(map[])]
  {
    assert [] + [c.args.create.OrElse(map[])] == [c.args.create.OrElse(map[])];
  }

  /** Where the row was patched, an empty database gets the record made instead: either the two differ,
      or the foreign row has become the tenant's. */
  lemma ForeignUpsertCrosses(row: Row, c: Call, t: string)
    requires c.action.Upsert? && Matches(row, c.Filter()) && !Owned(row, t)
    ensures !Isolated([row], c, t)
  {
    OneRow(row, c.Filter(), map[], t);
    PatchedRow(row, c);
    InsertedRow(c);
    OneRow(row + PatchOf(c), c.Filter(), map[], t);
    if Owned(row + PatchOf(c), t) {
      assert Others(Execute([row], c).0, t) == [] != Others([row], t);
    } else {
      assert Of(Execute([row], c).0, t) == [] != Execute(Of([row], t), c).0;
    }
  }

  /** A patch that moves a row of the tenant's takes it out of the tenant's rows. */
  lemma MovingPatchCrosses(row: Row, c: Call, t: string)
    requires c.action.UpdateMany? || c.action.Update? || c.action.Upsert?
    requires Matches(row, c.Filter()) && Owned(row, t) && !KeepsIn(PatchOf(c), t)
    ensures !Isolated([row], c, t)
  {
    OneRow(row, c.Filter(), map[], t);
    PatchedRow(row, c);
    OneRow(row + PatchOf(c), c.Filter(), map[], t);
    assert Of(Execute([row], c).0, t) != Execute(Of([row], t), c).0;
  }

  lemma {:induction false} ForeignRecord(records: seq<Record>, t: string)
    requires Of(records, t) == records
    ensures forall i :: 0 <= i < |records| ==> Owned(records[i], t)
  {
    if records != [] {
      OfIsNoLonger(records[1..], t);
      ForeignRecord(records[1..], t);
    }
  }

  lemma {:induction false} OfIsNoLonger(db: Table, t: string)
    ensures |Of(db, t)| <= |db|
  {
    if db != [] {
      OfIsNoLonger(db[1..], t);
    }
  }

  /** Inserting into an empty database shows whether the records are the tenant's. */
  lemma ForeignRecordCrosses(c: Call, t: string)
    requires DataAction(c.action) || c.action.Upsert?
    requires Isolated([], c, t)
    ensures if c.action.Upsert? then Owned(c.args.create.OrElse(map[]), t)
            else forall i :: 0 <= i < |c.Records()| ==> Owned(c.Records()[i], t)
  {
    if c.action.Upsert? {
      var record := c.args.create.OrElse(map[]);
      OneRow(record, c.Filter(), map[], t);
      assert [] + [record] == [record];
    } else {
      assert [] + c.Records() == c.Records();
      ForeignRecord(c.Records(), t);
    }
  }

  lemma UnsoundCrosses(c: Call, t: string) returns (db: Table)
    requires !Sound(c, t)
    ensures !Isolated(db, c, t)
  {
    var w := c.Filter();
    if c.action.Raw? {
      var row: Row := map[];
      OneRow(row, w, map[], t);
      return [row];
    }
    if DataAction(c.action) {
      if Isolated([], c, t) { ForeignRecordCrosses(c, t); }
      return [];
    }
    if row: Row :| Matches(row, w) && !Owned(row, t) {
      ForeignMatchCrosses(row, c, t);
      return [row];
    }
    if c.action.UpdateMany? || c.action.Update? || c.action.Upsert? {
      if MatchesInside(w, t) && !KeepsIn(PatchOf(c), t) {
        var row: Row :| Matches(row, w) && Owned(row, t);
        MovingPatchCrosses(row, c, t);
        return [row];
      }
    }
    if Isolated([], c, t) { ForeignRecordCrosses(c, t); }
    return [];
  }

  ghost predicate AlwaysIsolated(c: Call, t: string) { forall db: Table :: Isolated(db, c, t) }

  /** Which calls stay inside the tenant whatever the database holds: exactly the sound ones. */
  lemma IsolatedExactlyWhenSound(c: Call, t: string)
    ensures AlwaysIsolated(c, t) <==> Sound(c, t)
  {
    if Sound(c, t) {
      forall db: Table
        ensures Isolated(db, c, t)
      {
        SoundIsIsolated(db, c, t);
      }
    } else {
      var db := UnsoundCrosses(c, t);
    }
  }

  /** A sequence of calls through the middleware; calls it stops change nothing and answer nothing. */
  function Run(db: Table, ctx: Context, calls: seq<Call>): (Table, seq<Option<Answer>>) {
    if calls == [] then (db, [])
    else
      var (db1, answers) := Run(db, ctx, calls[..|calls| - 1]);
      match Intercept(ctx, calls[|calls| - 1])
      case MissingTenant => (db1, answers + [None])
      case Next(c) =>
        var (db2, answer) := Execute(db1, c);
        (db2, answers + [Some(answer)])
  }

  /** The middleware passes the call on, and what it passes on is sound. */
  ghost predicate PassesSound(ctx: Context, c: Call) {
    ctx.Enforced() && ctx.HasTenant() && Intercept(ctx, c).Next? && Sound(Intercept(ctx, c).call, ctx.httpTenant.value)
  }

  /** Over any sequence of calls a tenant's requests make that are sound once rewritten: what they are
      answered and what becomes of the tenant's rows is as if it were alone, and no other row changes. */
  lemma {:induction false} TenantsDoNotInterfere(db: Table, ctx: Context, calls: seq<Call>)
    requires ctx.HasTenant() && forall i :: 0 <= i < |calls| ==> PassesSound(ctx, calls[i])
    ensures var t := ctx.httpTenant.value;
            && Run(db, ctx, calls).1 == Run(Of(db, t), ctx, calls).1
            && Of(Run(db, ctx, calls).0, t) == Run(Of(db, t), ctx, calls).0
            && Others(Run(db, ctx, calls).0, t) == Others(db, t)
  {
    if calls != [] {
      var earlier, c := calls[..|calls| - 1], calls[|calls| - 1];
      TenantsDoNotInterfere(db, ctx, earlier);
      assert PassesSound(ctx, c);
      SoundIsIsolated(Run(db, ctx, earlier).0, Intercept(ctx, c).call, ctx.httpTenant.value);
    }
  }

  /** The context of a request of the tenant `t`. */
  function ContextOf(t: string): Context { Context(true, false, Some(t)) }

  datatype Tagged<T> = Tagged(tenant: string, item: T)

  /** The calls of many tenants in the order in which they reach the database. */
  function RunAll(db: Table, calls: seq<Tagged<Call>>): (Table, seq<Tagged<Option<Answer>>>) {
    if calls == [] then (db, [])
    else
      var last := calls[|calls| - 1];
      var (db1, answers) := RunAll(db, calls[..|calls| - 1]);
      match Intercept(ContextOf(last.tenant), last.item)
      case MissingTenant => (db1, answers + [Tagged(last.tenant, None)])
      case Next(c) =>
        var (db2, answer) := Execute(db1, c);
        (db2, answers + [Tagged(last.tenant, Some(answer))])
  }

  /** What one tenant sees of such a list. */
  function OwnOf<T>(items: seq<Tagged<T>>, t: string): seq<T> {
    if items == [] then []
    else
      var last := items[|items| - 1];
      OwnOf(items[..|items| - 1], t) + (if last.tenant == t then [last.item] else [])
  }

  lemma OwnOfSnoc<T>(items: seq<Tagged<T>>, last: Tagged<T>, t: string)
    ensures OwnOf(items + [last], t) == OwnOf(items, t) + (if last.tenant == t then [last.item] else [])
  {
    assert (items + [last])[..|items|] == items;
  }

  lemma RunSnoc(db: Table, ctx: Context, calls: seq<Call>, c: Call)
    requires Intercept(ctx, c).Next?
    ensures var (db1, answers) := Run(db, ctx, calls);
            var (db2, answer) := Execute(db1, Intercept(ctx, c).call);
            Run(db, ctx, calls + [c]) == (db2, answers + [Some(answer)])
  {
    assert (calls + [c])[..|calls|] == calls;
  }

  /** A tenant's rows are among the others of any other tenant. */
  lemma {:induction false} OfOthers(db: Table, t: string, other: string)
    requires t != other
    ensures Of(Others(db, other), t) == Of(db, t)
  {
    if db != [] {
      OfOthers(db[1..], t, other);
      OfConcat(if Owned(db[0], other) then [] else [db[0]], Others(db[1..], other), t);
      OneRow(db[0], Everything, map[], t);
    }
  }

  /** However the calls of many tenants interleave, each tenant is answered, and finds its rows, as if
      its own calls had run alone on its own rows. */
  lemma {:induction false} InterleavedTenantsDoNotInterfere(db: Table, calls: seq<Tagged<Call>>, t: string)
    requires forall i :: 0 <= i < |calls| ==> PassesSound(ContextOf(calls[i].tenant), calls[i].item)
    ensures OwnOf(RunAll(db, calls).1, t) == Run(Of(db, t), ContextOf(t), OwnOf(calls, t)).1
    ensures Of(RunAll(db, calls).0, t) == Run(Of(db, t), ContextOf(t), OwnOf(calls, t)).0
  {
    if calls != [] {
      var earlier, last := calls[..|calls| - 1], calls[|calls| - 1];
      InterleavedTenantsDoNotInterfere(db, earlier, t);
      assert PassesSound(ContextOf(last.tenant), last.item);
      var db1, answers := RunAll(db, earlier).0, RunAll(db, earlier).1;
      var c := Intercept(ContextOf(last.tenant), last.item).call;
      SoundIsIsolated(db1, c, last.tenant);
      OwnOfSnoc(answers, Tagged(last.tenant, Some(Execute(db1, c).1)), t);
      if last.tenant == t {
        RunSnoc(Of(db, t), ContextOf(t), OwnOf(earlier, t), last.item);
      } else {
        assert OwnOf(calls, t) == OwnOf(earlier, t);
        OfOthers(db1, t, last.tenant);
        OfOthers(Execute(db1, c).0, t, last.tenant);
      }
    }
  }

  // ---------------------------------------------------------------- what the middleware lets through

  const ID: Field := "id"
  const BY_ID := Everything.(fields := map[ID := Is(Number(1))])

  lemma ByIdOnOneRow(row: Row, rename: Record)
    requires Matches(row, BY_ID)
    ensures Execute([row], Call(FindUnique, Args(Some(BY_ID), None, None, None))).1 == Rows([row])
    ensures Execute([row], Call(Update, Args(Some(BY_ID), Some(One(rename)), None, None))).0 == [row + rename]
    ensures Execute([row], Call(Delete, Args(Some(BY_ID), None, None, None))).0 == []
  {
    assert Select([row], BY_ID) == [row] == First([row]);
  }

  /** Calls by id go through as they are: any tenant finds, changes and deletes another's row. */
  lemma CallsByIdCross(ctx: Context, other: string)
    requires ctx.Enforced() && ctx.HasTenant() && other != ctx.httpTenant.value
    ensures var foreign: Row := map[ID := Number(1), TENANT := Text(other)];
            var rename: Record := map["name" := Text("renamed")];
            var find := Call(FindUnique, Args(Some(BY_ID), None, None, None));
            var update := Call(Update, Args(Some(BY_ID), Some(One(rename)), None, None));
            var delete := Call(Delete, Args(Some(BY_ID), None, None, None));
            && Intercept(ctx, find) == Next(find) && Execute([foreign], find).1 == Rows([foreign])
            && Intercept(ctx, update) == Next(update) && Execute([foreign], update).0 == [foreign + rename] != [foreign]
            && Intercept(ctx, delete) == Next(delete) && Execute([foreign], delete).0 == []
  {
    var foreign: Row := map[ID := Number(1), TENANT := Text(other)];
    var rename: Record := map["name" := Text("renamed")];
    ByIdOnOneRow(foreign, rename);
    assert "name" !in foreign && "name" in foreign + rename;
  }

  /** So do a query that names another tenant itself, and an update that moves rows. */
  lemma DisagreeingCallsCross(ctx: Context, other: string)
    requires ctx.Enforced() && ctx.HasTenant() && other != ctx.httpTenant.value
    ensures var foreign: Row := map[TENANT := Text(other)];
            var own: Row := map[TENANT := Text(ctx.httpTenant.value)];
            var byTenant := Everything.(fields := map[TENANT := Is(Text(other))]);
            var named := Call(Read, Args(Some(byTenant), None, None, None));
            var move := Call(UpdateMany, Args(None, Some(One(foreign)), None, None));
            && Intercept(ctx, named) == Next(named) && Execute([foreign], named).1 == Rows([foreign])
            && Intercept(ctx, move).Next? && Execute([own], Intercept(ctx, move).call).0 == [foreign]
  {
    var t := ctx.httpTenant.value;
    var foreign: Row := map[TENANT := Text(other)];
    var own: Row := map[TENANT := Text(t)];
    var byTenant := Everything.(fields := map[TENANT := Is(Text(other))]);
    assert Matches(foreign, byTenant) && Matches(own, Everything);
    OneRow(foreign, byTenant, map[], t);
    CompletedWhere(own, Everything, t);
    OneRow(own, WhereWithTenant(Everything, t), foreign, t);
    assert own + foreign == foreign;
  }

  // ---------------------------------------------------------------- the parameters object

  /** The parameters of one call, which the middleware overwrites before passing them on. */
  class Params {
    const action: Action
    var args: Args

    constructor (c: Call)
      ensures Current() == c
    {
      action, args := c.action, c.args;
    }

    function Current(): Call
      reads this
    {
      Call(action, args)
    }

    method Rewrite(ctx: Context) returns (passed: bool)
      modifies this
      ensures passed == Intercept(ctx, old(Current())).Next?
      ensures Current() == if passed then Intercept(ctx, old(Current())).call else old(Current())
    {
      if !ctx.scopedModel || ctx.bypass {
        return true;
      }
      if WhereAction(action) {
        var where := args.where.OrElse(Everything);
        if TENANT !in where.fields {
          if !ctx.HasTenant() {
            return false;
          }
          args := args.(where := Some(where.(fields := where.fields[TENANT := Is(Text(ctx.httpTenant.value))])));
        }
        return true;
      }
      if DataAction(action) {
        if args.data.Some? && args.data.value.Many? {
          var data := args.data.value.records;
          assert Current().Records() == data;
          if exists i :: 0 <= i < |data| && TENANT !in data[i] {
            if !ctx.HasTenant() {
              return false;
            }
            args := args.(data := Some(Many(AllWithTenant(data, ctx.httpTenant.value))));
          }
        } else {
          var data := if args.data.Some? then args.data.value.record else map[];
          assert Current().Records() == [data];
          if TENANT !in data {
            assert TENANT !in Current().Records()[0];
            if !ctx.HasTenant() {
              return false;
            }
            args := args.(data := Some(One(data[TENANT := Text(ctx.httpTenant.value)])));
          }
        }
        return true;
      }
      if action.Upsert? {
        var where := args.where.OrElse(Everything);
        var create := args.create.OrElse(map[]);
        var update := args.update.OrElse(map[]);
        if TENANT !in where.fields || TENANT !in create || TENANT !in update {
          if !ctx.HasTenant() {
            return false;
          }
          var t := ctx.httpTenant.value;
          args := args.(where := Some(WhereWithTenant(where, t)),
                        create := Some(WithTenant(create, t)),
                        update := Some(WithTenant(update, t)));
        }
        return true;
      }
      return true;
    }
  }
}

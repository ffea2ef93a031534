/**
 Versioned specialists: edits, publishing, rollback and archiving of one template and its versions.

 A version row is written once, keyed by its number; the snapshot holds the twelve content columns.
 */
module Specialists {
  import opened Options

  datatype Status = DRAFT | PUBLISHED | ARCHIVED
  datatype Source = CODE | CUSTOM

  datatype Snapshot = Snapshot(name: string, description: string, instructions: string, tone: string,
                               exampleMessage: string, triggerPhases: seq<string>, triggerKeywords: seq<string>,
                               minConfidence: real, cooldownSec: int, priority: int, model: string, maxLatencyMs: int)

  datatype Row = Row(name: string, description: string, instructions: string, tone: string,
                     exampleMessage: string, triggerPhases: seq<string>, triggerKeywords: seq<string>,
                     minConfidence: real, cooldownSec: int, priority: int, model: string, maxLatencyMs: int,
                     icon: Option<string>, color: Option<string>,
                     status: Status, enabled: bool, source: Source, dryRun: bool)

  type Versions = map<nat, Snapshot>

  datatype State = State(row: Row, versions: Versions)

  /** A patch: every column may be left out. */
  datatype Patch = Patch(name: Option<string>, description: Option<string>, instructions: Option<string>,
                         tone: Option<string>, exampleMessage: Option<string>, triggerPhases: Option<seq<string>>,
                         triggerKeywords: Option<seq<string>>, minConfidence: Option<real>, cooldownSec: Option<int>,
                         priority: Option<int>, model: Option<string>, maxLatencyMs: Option<int>,
                         icon: Option<string>, color: Option<string>, enabled: Option<bool>)
  {
    /** Some column other than `enabled` is given. */
    predicate HasExtras() {
      this != Patch(None, None, None, None, None, None, None, None, None, None, None, None, None, None, enabled)
    }
  }

  function ToSnapshot(row: Row): Snapshot {
    Snapshot(row.name, row.description, row.instructions, row.tone, row.exampleMessage, row.triggerPhases,
             row.triggerKeywords, row.minConfidence, row.cooldownSec, row.priority, row.model, row.maxLatencyMs)
  }

  function Restored(row: Row, snap: Snapshot): Row {
    row.(name := snap.name, description := snap.description, instructions := snap.instructions, tone := snap.tone,
         exampleMessage := snap.exampleMessage, triggerPhases := snap.triggerPhases,
         triggerKeywords := snap.triggerKeywords, minConfidence := snap.minConfidence,
         cooldownSec := snap.cooldownSec, priority := snap.priority, model := snap.model,
         maxLatencyMs := snap.maxLatencyMs)
  }

  function Patched(row: Row, p: Patch): Row {
    row.(name := p.name.OrElse(row.name), description := p.description.OrElse(row.description),
         instructions := p.instructions.OrElse(row.instructions), tone := p.tone.OrElse(row.tone),
         exampleMessage := p.exampleMessage.OrElse(row.exampleMessage),
         triggerPhases := p.triggerPhases.OrElse(row.triggerPhases),
         triggerKeywords := p.triggerKeywords.OrElse(row.triggerKeywords),
         minConfidence := p.minConfidence.OrElse(row.minConfidence),
         cooldownSec := p.cooldownSec.OrElse(row.cooldownSec), priority := p.priority.OrElse(row.priority),
         model := p.model.OrElse(row.model), maxLatencyMs := p.maxLatencyMs.OrElse(row.maxLatencyMs),
         icon := if p.icon.Some? then p.icon else row.icon, color := if p.color.Some? then p.color else row.color,
         enabled := p.enabled.OrElse(row.enabled))
  }

  // ---------------------------------------------------------------- the operations

  function Updated(s: State, p: Patch): State {
    if s.row.source == CODE && p.HasExtras() then s
    else
      var demoted := s.row.source == CUSTOM && s.row.status == PUBLISHED && p.enabled.None?;
      s.(row := Patched(s.row, p).(status := if demoted then DRAFT else s.row.status))
  }

  /** The number `orderBy: { version: 'desc' }, take: 1` finds, or 0. */
  ghost predicate IsLatest(versions: Versions, n: nat) {
    if versions == map[] then n == 0 else n in versions && forall k :: k in versions ==> k <= n
  }

  ghost function Latest(versions: Versions): (n: nat)
    ensures IsLatest(versions, n)
  {
    Greatest(versions);
    var n: nat :| IsLatest(versions, n);
    n
  }

  ghost function Published(s: State): (s': State)
    ensures !s.row.dryRun ==> s' == s
  {
    if !s.row.dryRun then s
    else State(s.row.(status := PUBLISHED, enabled := true), s.versions[Latest(s.versions) + 1 := ToSnapshot(s.row)])
  }

  function RolledBack(s: State, version: nat): State {
    if version !in s.versions then s
    else s.(row := Restored(s.row, s.versions[version]).(status := DRAFT))
  }

  function Archived(s: State): State { s.(row := s.row.(status := ARCHIVED, enabled := false)) }
  function DryRun(s: State): State { s.(row := s.row.(dryRun := true)) }

  /** The update half of registerBuiltins: the columns a builtin carries, as CODE and PUBLISHED. */
  function Registered(s: State, item: Snapshot): State {
    s.(row := s.row.(name := item.name, description := item.description, instructions := item.instructions,
                     triggerPhases := item.triggerPhases, triggerKeywords := item.triggerKeywords,
                     model := item.model, maxLatencyMs := item.maxLatencyMs, priority := item.priority,
                     source := CODE, status := PUBLISHED))
  }

  datatype Request = Update(patch: Patch) | Publish | Rollback(version: nat) | Archive | Try | Register(item: Snapshot)

  ghost function Next(s: State, r: Request): State {
    match r
    case Update(p) => Updated(s, p)
    case Publish => Published(s)
    case Rollback(v) => RolledBack(s, v)
    case Archive => Archived(s)
    case Try => DryRun(s)
    case Register(item) => Registered(s, item)
  }

  ghost function Run(s: State, trace: seq<Request>): State
    decreases |trace|
  {
    if trace == [] then s else Run(Next(s, trace[0]), trace[1..])
  }

  // ---------------------------------------------------------------- what holds

  lemma {:induction false} Greatest(versions: Versions)
    ensures exists n: nat :: IsLatest(versions, n)
    decreases |versions|
  {
    if versions == map[] {
      assert IsLatest(versions, 0);
    } else {
      var k :| k in versions;
      var rest := versions - {k};
      Greatest(rest);
      var m: nat :| IsLatest(rest, m);
      var n := if rest == map[] || k > m then k else m;
      assert forall j :: j in versions ==> j == k || j in rest;
      assert IsLatest(versions, n);
    }
  }

  /** The version numbers are 1 to n. */
  ghost predicate NumberedTo(versions: Versions, n: nat) {
    forall k :: k in versions <==> 1 <= k <= n
  }

  /** A published specialist shows exactly what its newest version recorded. */
  ghost predicate ShowsLatest(s: State, n: nat) {
    s.row.status == PUBLISHED ==> n in s.versions && ToSnapshot(s.row) == s.versions[n]
  }

  /** The twelve content columns agree. */
  predicate SameContent(row: Row, row': Row) {
    && row'.name == row.name && row'.description == row.description && row'.instructions == row.instructions
    && row'.tone == row.tone && row'.exampleMessage == row.exampleMessage
    && row'.triggerPhases == row.triggerPhases && row'.triggerKeywords == row.triggerKeywords
    && row'.minConfidence == row.minConfidence && row'.cooldownSec == row.cooldownSec
    && row'.priority == row.priority && row'.model == row.model && row'.maxLatencyMs == row.maxLatencyMs
  }

  /** The columns a patch gives, as a row that is `row` elsewhere. */
  predicate Given<T(==)>(column: Option<T>, before: T, after: T) {
    if column.Some? then after == column.value else after == before
  }

  /** An update that is admitted gives every column its value in the patch, and leaves out what that leaves
      out; only the status may change beside, from PUBLISHED to DRAFT. A builtin changes in `enabled` only. */
  lemma UpdateSetsWhatItGives(s: State, p: Patch)
    requires s.row.source == CODE ==> p == NO_PATCH.(enabled := p.enabled)
    ensures var row, row' := s.row, Updated(s, p).row;
            && Given(p.name, row.name, row'.name) && Given(p.description, row.description, row'.description)
            && Given(p.instructions, row.instructions, row'.instructions) && Given(p.tone, row.tone, row'.tone)
            && Given(p.exampleMessage, row.exampleMessage, row'.exampleMessage)
            && Given(p.triggerPhases, row.triggerPhases, row'.triggerPhases)
            && Given(p.triggerKeywords, row.triggerKeywords, row'.triggerKeywords)
            && Given(p.minConfidence, row.minConfidence, row'.minConfidence)
            && Given(p.cooldownSec, row.cooldownSec, row'.cooldownSec) && Given(p.priority, row.priority, row'.priority)
            && Given(p.model, row.model, row'.model) && Given(p.maxLatencyMs, row.maxLatencyMs, row'.maxLatencyMs)
            && (if p.icon.Some? then row'.icon == p.icon else row'.icon == row.icon)
            && (if p.color.Some? then row'.color == p.color else row'.color == row.color)
            && Given(p.enabled, row.enabled, row'.enabled)
            && row'.source == row.source && row'.dryRun == row.dryRun && Updated(s, p).versions == s.versions
            && row'.status == (if row.source == CUSTOM && row.status == PUBLISHED && p.enabled.None? then DRAFT
                               else row.status)
  {
  }

  /** Any other patch of a builtin is refused. */
  lemma BuiltinsAreReadOnly(s: State, p: Patch)
    requires s.row.source == CODE && p != NO_PATCH.(enabled := p.enabled)
    ensures Updated(s, p) == s
  {
  }

  /** A published custom row is patched in `enabled` and in content at once. */
  predicate Drifts(s: State, p: Patch) {
    && s.row.source == CUSTOM && s.row.status == PUBLISHED && p.enabled.Some?
    && ToSnapshot(Patched(s.row, p)) != ToSnapshot(s.row)
  }

  /** Exactly when an update lets a published specialist drift from its newest version. */
  lemma UpdateKeepsExactly(s: State, p: Patch, n: nat)
    requires ShowsLatest(s, n)
    ensures ShowsLatest(Updated(s, p), n) <==> !Drifts(s, p)
  {
  }

  const NO_PATCH := Patch(None, None, None, None, None, None, None, None, None, None, None, None, None, None, None)

  /** Such an update exists for every published custom specialist: a new priority with `enabled`. */
  lemma MixedPatchDrifts(s: State, n: nat)
    requires ShowsLatest(s, n) && s.row.source == CUSTOM && s.row.status == PUBLISHED
    ensures var p := NO_PATCH.(priority := Some(if s.row.priority == 100 then 99 else 100), enabled := Some(true));
            Updated(s, p).row.status == PUBLISHED && !ShowsLatest(Updated(s, p), n)
  {
  }

  /** No request of the trace is a builtin registration or lets the specialist drift. */
  ghost predicate NeverDrifts(s: State, trace: seq<Request>)
    decreases |trace|
  {
    trace != [] ==>
      && !trace[0].Register? && !(trace[0].Update? && Drifts(s, trace[0].patch))
      && NeverDrifts(Next(s, trace[0]), trace[1..])
  }

  lemma PublishAppends(s: State, n: nat)
    requires NumberedTo(s.versions, n) && s.row.dryRun
    ensures Published(s) == State(s.row.(status := PUBLISHED, enabled := true), s.versions[n + 1 := ToSnapshot(s.row)])
    ensures NumberedTo(Published(s).versions, n + 1)
  {
    if n == 0 {
      assert s.versions == map[];
    } else {
      assert n in s.versions;
    }
    assert Latest(s.versions) == n;
  }

  /** Among the requests that are no registration, exactly the drifting updates end the agreement. */
  lemma StepShowsLatest(s: State, r: Request, n: nat)
    requires !r.Register? && NumberedTo(s.versions, n) && ShowsLatest(s, n) && s.row.source == CUSTOM
    ensures Next(s, r).row.source == CUSTOM
    ensures var n' := if r.Publish? && s.row.dryRun then n + 1 else n;
            && NumberedTo(Next(s, r).versions, n')
            && (ShowsLatest(Next(s, r), n') <==> !(r.Update? && Drifts(s, r.patch)))
  {
    if r.Publish? && s.row.dryRun {
      PublishAppends(s, n);
    } else if r.Update? {
      UpdateKeepsExactly(s, r.patch, n);
    }
  }

  /** For a custom specialist that no update lets drift: in every run the versions are numbered from
      1 without a gap, and whenever it is published it shows exactly its newest version. */
  lemma {:induction false} PublishedShowsLatest(s: State, trace: seq<Request>, n: nat) returns (n': nat)
    requires NeverDrifts(s, trace)
    requires NumberedTo(s.versions, n) && ShowsLatest(s, n) && s.row.source == CUSTOM
    ensures n <= n' && NumberedTo(Run(s, trace).versions, n') && ShowsLatest(Run(s, trace), n')
    decreases |trace|
  {
    if trace == [] {
      return n;
    }
    StepShowsLatest(s, trace[0], n);
    n' := PublishedShowsLatest(Next(s, trace[0]), trace[1..], if trace[0].Publish? && s.row.dryRun then n + 1 else n);
  }

  /** Version rows are never changed or removed, by any request. */
  lemma {:induction false} VersionsAreForever(s: State, trace: seq<Request>, v: nat)
    requires v in s.versions
    ensures v in Run(s, trace).versions && Run(s, trace).versions[v] == s.versions[v]
    decreases |trace|
  {
    if trace != [] {
      var s' := Next(s, trace[0]);
      if trace[0].Publish? && s.row.dryRun {
        NewestIsNew(s, v);
      }
      VersionsAreForever(s', trace[1..], v);
    }
  }

  lemma NewestIsNew(s: State, v: nat)
    requires v in s.versions && s.row.dryRun
    ensures v in Published(s).versions && Published(s).versions[v] == s.versions[v]
  {
    assert IsLatest(s.versions, Latest(s.versions));
  }

  /** Whatever was done since, rolling back to the version a publish made restores exactly the content
      that was published, as a draft. */
  lemma RollbackRestoresPublished(s: State, n: nat, trace: seq<Request>)
    requires s.row.dryRun && NumberedTo(s.versions, n)
    ensures var later := RolledBack(Run(Published(s), trace), n + 1);
            SameContent(s.row, later.row) && later.row.status == DRAFT
  {
    PublishAppends(s, n);
    VersionsAreForever(Published(s), trace, n + 1);
  }

  // ---------------------------------------------------------------- the service, for one template

  class Specialist {
    var row: Row
    var versions: Versions

    ghost function Current(): State
      reads this
    {
      State(row, versions)
    }

    /** A new template is a custom draft without versions. */
    constructor (content: Snapshot, icon: Option<string>, color: Option<string>)
      ensures row.source == CUSTOM && row.status == DRAFT && ToSnapshot(row) == content
      ensures NumberedTo(versions, 0) && ShowsLatest(Current(), 0)
    {
      row := Row(content.name, content.description, content.instructions, content.tone, content.exampleMessage,
                 content.triggerPhases, content.triggerKeywords, content.minConfidence, content.cooldownSec,
                 content.priority, content.model, content.maxLatencyMs, icon, color, DRAFT, true, CUSTOM, false);
      versions := map[];
    }

    method UpdateRow(p: Patch) returns (ok: bool)
      modifies this`row
      ensures Current() == Updated(old(Current()), p)
      ensures ok <==> !(old(row).source == CODE && p.HasExtras())
      ensures old(row).source == CODE ==> row == old(row).(enabled := row.enabled)
    {
      if row.source == CODE {
        if p.HasExtras() {
          return false;
        }
      }
      var status := row.status;
      if row.source == CUSTOM && row.status == PUBLISHED && p.enabled.None? {
        status := DRAFT;
      }
      row := Patched(row, p).(status := status);
      return true;
    }

    method PublishRow(ghost n: nat) returns (version: Option<nat>)
      requires NumberedTo(versions, n)
      modifies this
      ensures Current() == Published(old(Current()))
      ensures version == if old(row).dryRun then Some(n + 1) else None
      ensures version.Some? ==> NumberedTo(versions, n + 1) && versions[n + 1] == ToSnapshot(row)
      ensures version.Some? ==> row.status == PUBLISHED
    {
      if !row.dryRun {
        return None;
      }
      PublishAppends(Current(), n);
      var latest := 0;
      if top :| top in versions && forall k :: k in versions ==> k <= top {
        latest := top;
        assert n in versions;
      } else {
        assert n !in versions;
      }
      var next := latest + 1;
      versions := versions[next := ToSnapshot(row)];
      row := row.(status := PUBLISHED, enabled := true);
      return Some(next);
    }

    method RollBack(version: nat) returns (ok: bool)
      modifies this`row
      ensures Current() == RolledBack(old(Current()), version)
      ensures ok <==> version in versions
      ensures ok ==> ToSnapshot(row) == versions[version] && row.status == DRAFT
    {
      if version !in versions {
        return false;
      }
      var snap := versions[version];
      row := Restored(row, snap);
      row := row.(status := DRAFT);
      return true;
    }

    method ArchiveRow()
      modifies this`row
      ensures row.status == ARCHIVED && !row.enabled && ToSnapshot(row) == ToSnapshot(old(row))
      ensures row.icon == old(row).icon && row.color == old(row).color
      ensures row.source == old(row).source && row.dryRun == old(row).dryRun
      ensures forall n: nat :: ShowsLatest(Current(), n)
      ensures Current() == Archived(old(Current()))
    {
      row := row.(status := ARCHIVED, enabled := false);
    }
  }
}

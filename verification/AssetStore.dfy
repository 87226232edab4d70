/**
 * The in-memory asset store: rows that are changed in place under compare-and-set on their version, one
 * active lowercased name per organization, and transactions that restore cloned rows when the work
 * throws. Lowercasing is a parameter; row identifiers are fresh.
 */
module AssetStore {
  import opened Wrappers

  datatype Uuid = Uuid(text: string)

  datatype Lifecycle = Active | Archived

  /** The fields an update may set. */
  datatype Field =
    | AssetType | BusinessCriticality | InternetExposure | DataClassification | Environment | OwningTeam
    | Description | RepositoryUrl | DeploymentContext | Owners | Tags | Identifiers

  datatype Value = Null | Text(text: string) | Many(items: seq<string>)

  datatype Asset = Asset(
    id: Uuid, organizationId: Uuid, name: string, lifecycle: Lifecycle, fields: map<Field, Value>,
    version: int, archivedAt: Option<int>)

  datatype State = State(assets: map<Uuid, Asset>, audit: seq<string>)

  datatype Op =
    | Create(id: Uuid, organizationId: Uuid, name: string, fields: map<Field, Value>)
    | Update(organizationId: Uuid, id: Uuid, expectedVersion: int, newName: Option<string>, patch: map<Field, Value>)
    | Archive(organizationId: Uuid, id: Uuid, expectedVersion: int, at: int)
    | Append(event: string)

  datatype Answer = Created | NameConflict | NotFound | AlreadyArchived | VersionConflict | Updated | Logged

  /** Some other active asset of the organization already has the name, up to case. */
  ghost predicate NameTaken(lower: string -> string, assets: map<Uuid, Asset>, organizationId: Uuid, name: string,
                            exceptId: Option<Uuid>) {
    exists id :: id in assets && Clashes(lower, assets[id], organizationId, name, exceptId)
  }

  predicate Clashes(lower: string -> string, a: Asset, organizationId: Uuid, name: string, exceptId: Option<Uuid>) {
    && a.organizationId == organizationId && a.lifecycle == Active
    && Some(a.id) != exceptId && lower(a.name) == lower(name)
  }

  ghost function Answered(lower: string -> string, s: State, op: Op): Answer {
    match op
    case Create(id, org, name, fields) => if NameTaken(lower, s.assets, org, name, None) then NameConflict else Created
    case Append(event) => Logged
    case Archive(org, id, expected, at) =>
      if id !in s.assets || s.assets[id].organizationId != org then NotFound
      else if s.assets[id].lifecycle == Archived then AlreadyArchived
      else if s.assets[id].version != expected then VersionConflict
      else Updated
    case Update(org, id, expected, newName, patch) =>
      if id !in s.assets || s.assets[id].organizationId != org then NotFound
      else if s.assets[id].lifecycle == Archived then AlreadyArchived
      else if s.assets[id].version != expected then VersionConflict
      else if newName.Some? && NameTaken(lower, s.assets, org, newName.value, Some(id)) then NameConflict
      else Updated
  }

  function Retired(a: Asset, at: int): Asset {
    a.(lifecycle := Archived, archivedAt := Some(at), version := a.version + 1)
  }

  function Changed(a: Asset, newName: Option<string>, patch: map<Field, Value>): Asset {
    a.(name := if newName.Some? then newName.value else a.name, fields := a.fields + patch, version := a.version + 1)
  }

  ghost function Apply(lower: string -> string, s: State, op: Op): State {
    var answer := Answered(lower, s, op);
    match op
    case Create(id, org, name, fields) =>
      if answer == Created then s.(assets := s.assets[id := Asset(id, org, name, Active, fields, 1, None)]) else s
    case Append(event) => s.(audit := s.audit + [event])
    case Archive(org, id, expected, at) =>
      if answer != Updated then s else
      s.(assets := s.assets[id := Retired(s.assets[id], at)])
    case Update(org, id, expected, newName, patch) =>
      if answer != Updated then s else
      s.(assets := s.assets[id := Changed(s.assets[id], newName, patch)])
  }

  ghost function Execute(lower: string -> string, s: State, ops: seq<Op>): State
    decreases |ops|
  {
    if ops == [] then s else Execute(lower, Apply(lower, s, ops[0]), ops[1..])
  }

  /** A call on its own, or a transaction whose work performs some calls and then returns or throws. */
  datatype Step = One(op: Op) | Transaction(ops: seq<Op>, throws: bool)

  ghost function Perform(lower: string -> string, s: State, step: Step): State {
    match step
    case One(op) => Apply(lower, s, op)
    case Transaction(ops, throws) => if throws then s else Execute(lower, s, ops)
  }

  ghost function Run(lower: string -> string, s: State, steps: seq<Step>): State
    decreases |steps|
  {
    if steps == [] then s else Run(lower, Perform(lower, s, steps[0]), steps[1..])
  }

  /** Created identifiers are fresh, and rows carry their own identifier. */
  ghost predicate Legal(lower: string -> string, s: State, ops: seq<Op>)
    decreases |ops|
  {
    ops == [] || ((ops[0].Create? ==> ops[0].id !in s.assets) && Legal(lower, Apply(lower, s, ops[0]), ops[1..]))
  }

  ghost predicate LegalSteps(lower: string -> string, s: State, steps: seq<Step>)
    decreases |steps|
  {
    steps == [] ||
    (&& Legal(lower, s, if steps[0].One? then [steps[0].op] else steps[0].ops)
     && LegalSteps(lower, Perform(lower, s, steps[0]), steps[1..]))
  }

  ghost predicate Inv(lower: string -> string, s: State) {
    && (forall id | id in s.assets :: s.assets[id].id == id)
    && (forall a, b | a in s.assets && b in s.assets && a != b :: Compatible(lower, s.assets[a], s.assets[b]))
  }

  ghost predicate Compatible(lower: string -> string, a: Asset, b: Asset) {
    (a.lifecycle == Active && b.lifecycle == Active && a.organizationId == b.organizationId)
    ==> lower(a.name) != lower(b.name)
  }

  /** Another state an asset may be in later: the identity stays, and an archived asset stays as it is. */
  ghost predicate Follows(before: State, after: State) {
    forall id | id in before.assets ::
      && id in after.assets
      && after.assets[id].organizationId == before.assets[id].organizationId
      && (before.assets[id].lifecycle == Archived ==> after.assets[id] == before.assets[id])
  }

  lemma PutKeeps(lower: string -> string, s: State, a: Asset)
    requires Inv(lower, s) && forall other | other in s.assets && other != a.id :: Compatible(lower, a, s.assets[other])
    requires a.id in s.assets ==>
      s.assets[a.id].lifecycle == Active && s.assets[a.id].organizationId == a.organizationId
    ensures Inv(lower, s.(assets := s.assets[a.id := a])) && Follows(s, s.(assets := s.assets[a.id := a]))
  {}

  lemma ApplyKeeps(lower: string -> string, s: State, op: Op)
    requires Inv(lower, s) && (op.Create? ==> op.id !in s.assets)
    ensures Inv(lower, Apply(lower, s, op)) && Follows(s, Apply(lower, s, op))
  {
    var next := Apply(lower, s, op);
    if Answered(lower, s, op) in {Created, Updated} {
      var a := next.assets[op.id];
      forall other | other in s.assets && other != a.id ensures Compatible(lower, a, s.assets[other]) {
        if op.Create? {
          assert !Clashes(lower, s.assets[other], op.organizationId, op.name, None);
        } else if op.Update? && op.newName.Some? {
          assert !Clashes(lower, s.assets[other], op.organizationId, op.newName.value, Some(op.id));
        } else {
          assert Compatible(lower, s.assets[op.id], s.assets[other]);
        }
      }
      PutKeeps(lower, s, a);
    }
  }

  lemma {:induction false} ExecuteKeeps(lower: string -> string, s: State, ops: seq<Op>)
    requires Inv(lower, s) && Legal(lower, s, ops)
    ensures Inv(lower, Execute(lower, s, ops)) && Follows(s, Execute(lower, s, ops))
    decreases |ops|
  {
    hide Inv, Apply;
    if ops != [] {
      ApplyKeeps(lower, s, ops[0]);
      ExecuteKeeps(lower, Apply(lower, s, ops[0]), ops[1..]);
    }
  }

  /** Over every run: one active name per organization, up to case, and archived assets never change. */
  lemma {:induction false} NamesStayUnique(lower: string -> string, s: State, steps: seq<Step>)
    requires Inv(lower, s) && LegalSteps(lower, s, steps)
    ensures Inv(lower, Run(lower, s, steps)) && Follows(s, Run(lower, s, steps))
    decreases |steps|
  {
    hide Inv, Apply;
    if steps != [] {
      var ops := if steps[0].One? then [steps[0].op] else steps[0].ops;
      ExecuteKeeps(lower, s, ops);
      assert steps[0].One? ==> ops[1..] == [] && Execute(lower, s, ops) == Apply(lower, s, steps[0].op);
      NamesStayUnique(lower, Perform(lower, s, steps[0]), steps[1..]);
    }
  }

  // ---- names, and what archives and events a run leaves behind ----

  /** A name is held by an active asset of the organization, up to case, if it is not this one's. */
  ghost predicate Holder(lower: string -> string, s: State, id: Uuid, organizationId: Uuid, name: string) {
    && id in s.assets && s.assets[id].lifecycle == Active && s.assets[id].organizationId == organizationId
    && lower(s.assets[id].name) == lower(name)
  }

  /** A create is refused exactly when the name is held; a rename otherwise allowed, when another asset holds it. */
  lemma RefusedIffHeld(lower: string -> string, s: State, op: Op)
    requires Inv(lower, s)
    requires op.Create? || (op.Update? && op.newName.Some? && op.id in s.assets && s.assets[op.id].lifecycle == Active)
    requires op.Update? ==>
      s.assets[op.id].organizationId == op.organizationId && s.assets[op.id].version == op.expectedVersion
    ensures var name := if op.Create? then op.name else op.newName.value;
      Answered(lower, s, op) == NameConflict
      <==> exists id :: Holder(lower, s, id, op.organizationId, name) && (op.Update? ==> id != op.id)
  {
    var name := if op.Create? then op.name else op.newName.value;
    var except := if op.Create? then None else Some(op.id);
    if id :| Holder(lower, s, id, op.organizationId, name) && (op.Update? ==> id != op.id) {
      assert Clashes(lower, s.assets[id], op.organizationId, name, except);
    }
    if NameTaken(lower, s.assets, op.organizationId, name, except) {
      var id :| id in s.assets && Clashes(lower, s.assets[id], op.organizationId, name, except);
      assert Holder(lower, s, id, op.organizationId, name);
    }
  }

  /** Archiving an asset frees its name: nobody else can have held it. */
  lemma ArchiveFreesName(lower: string -> string, s: State, op: Op, id: Uuid)
    requires Inv(lower, s) && op.Archive? && Answered(lower, s, op) == Updated
    ensures !Holder(lower, Apply(lower, s, op), id, op.organizationId, s.assets[op.id].name)
  {
    if id in s.assets && id != op.id { assert Compatible(lower, s.assets[id], s.assets[op.id]); }
  }

  const EMPTY := State(map[], [])

  /** The calls of a run that no transaction undid, in order. */
  function Committed(steps: seq<Step>): seq<Op> {
    if steps == [] then []
    else
      (match steps[0] case One(op) => [op] case Transaction(ops, throws) => if throws then [] else ops)
      + Committed(steps[1..])
  }

  lemma {:induction false} ExecuteConcat(lower: string -> string, s: State, a: seq<Op>, b: seq<Op>)
    ensures Execute(lower, s, a + b) == Execute(lower, Execute(lower, s, a), b)
    ensures Legal(lower, s, a) && Legal(lower, Execute(lower, s, a), b) ==> Legal(lower, s, a + b)
    decreases |a|
  {
    hide Apply;
    if a == [] {
      assert a + b == b;
    } else {
      assert (a + b)[1..] == a[1..] + b;
      ExecuteConcat(lower, Apply(lower, s, a[0]), a[1..], b);
    }
  }

  /** Transactions are all or nothing: a run leaves exactly what its committed calls leave one after the other. */
  lemma {:induction false} RunIsItsCommittedCalls(lower: string -> string, s: State, steps: seq<Step>)
    ensures Run(lower, s, steps) == Execute(lower, s, Committed(steps))
    ensures LegalSteps(lower, s, steps) ==> Legal(lower, s, Committed(steps))
    decreases |steps|
  {
    hide Apply;
    if steps != [] {
      var first := if steps[0].One? then [steps[0].op] else if steps[0].throws then [] else steps[0].ops;
      assert steps[0].One? ==> first[1..] == [] && Execute(lower, s, first) == Apply(lower, s, steps[0].op);
      RunIsItsCommittedCalls(lower, Perform(lower, s, steps[0]), steps[1..]);
      ExecuteConcat(lower, s, first, Committed(steps[1..]));
    }
  }

  lemma ExecuteSnoc(lower: string -> string, s: State, ops: seq<Op>, n: nat)
    requires n < |ops|
    ensures Execute(lower, s, ops[..n + 1]) == Apply(lower, Execute(lower, s, ops[..n]), ops[n])
  {
    hide Apply;
    assert ops[..n + 1] == ops[..n] + [ops[n]] && [ops[n]][1..] == [];
    ExecuteConcat(lower, s, ops[..n], [ops[n]]);
  }

  /** Call k archives the asset at this time. */
  ghost predicate ArchivesAt(lower: string -> string, s: State, ops: seq<Op>, k: nat, id: Uuid, at: int) {
    k < |ops| && ops[k].Archive? && ops[k].id == id && ops[k].at == at
    && Answered(lower, Execute(lower, s, ops[..k]), ops[k]) == Updated
  }

  predicate ArchivedIn(s: State, id: Uuid, at: int) {
    id in s.assets && s.assets[id].lifecycle == Archived && s.assets[id].archivedAt == Some(at)
  }

  lemma ApplyArchives(lower: string -> string, s: State, op: Op, id: Uuid, at: int)
    ensures var archives := op.Archive? && op.id == id && op.at == at && Answered(lower, s, op) == Updated;
      && (ArchivedIn(Apply(lower, s, op), id, at) ==> ArchivedIn(s, id, at) || archives)
      && (archives ==> ArchivedIn(Apply(lower, s, op), id, at))
  {}

  lemma {:induction false} ArchivedBySomeone(lower: string -> string, ops: seq<Op>, n: nat, id: Uuid, at: int)
    returns (k: nat)
    requires n <= |ops| && ArchivedIn(Execute(lower, EMPTY, ops[..n]), id, at)
    ensures ArchivesAt(lower, EMPTY, ops, k, id, at)
    decreases n
  {
    hide Apply, Answered;
    assert ops[..0] == [];
    ExecuteSnoc(lower, EMPTY, ops, n - 1);
    ApplyArchives(lower, Execute(lower, EMPTY, ops[..n - 1]), ops[n - 1], id, at);
    if ArchivedIn(Execute(lower, EMPTY, ops[..n - 1]), id, at) {
      k := ArchivedBySomeone(lower, ops, n - 1, id, at);
    } else {
      k := n - 1;
    }
  }

  lemma {:induction false} LegalSplit(lower: string -> string, s: State, ops: seq<Op>, n: nat)
    requires Legal(lower, s, ops) && n <= |ops|
    ensures Legal(lower, s, ops[..n]) && Legal(lower, Execute(lower, s, ops[..n]), ops[n..])
    decreases n
  {
    hide Apply;
    if n == 0 {
      assert ops[..0] == [] && ops[0..] == ops;
    } else {
      assert ops[..n][1..] == ops[1..][..n - 1] && ops[n..] == ops[1..][n - 1..];
      LegalSplit(lower, Apply(lower, s, ops[0]), ops[1..], n - 1);
    }
  }

  lemma ArchivedStays(lower: string -> string, ops: seq<Op>, k: nat, id: Uuid, at: int)
    requires Legal(lower, EMPTY, ops) && ArchivesAt(lower, EMPTY, ops, k, id, at)
    ensures ArchivedIn(Execute(lower, EMPTY, ops), id, at)
  {
    hide Apply, Answered, Inv;
    assert Inv(lower, EMPTY) by { EmptyIsSound(lower); }
    ExecuteSnoc(lower, EMPTY, ops, k);
    ApplyArchives(lower, Execute(lower, EMPTY, ops[..k]), ops[k], id, at);
    LegalSplit(lower, EMPTY, ops, k + 1);
    ExecuteKeeps(lower, EMPTY, ops[..k + 1]);
    ExecuteKeeps(lower, Execute(lower, EMPTY, ops[..k + 1]), ops[k + 1..]);
    assert ops[..k + 1] + ops[k + 1..] == ops;
    ExecuteConcat(lower, EMPTY, ops[..k + 1], ops[k + 1..]);
  }

  lemma EmptyIsSound(lower: string -> string)
    ensures Inv(lower, EMPTY)
  {}

  /**
   * Over every run from the empty store: an asset is archived, at a time, if and only if a committed
   * archive of it with that time succeeded.
   */
  lemma ArchivedIff(lower: string -> string, steps: seq<Step>, id: Uuid, at: int)
    requires LegalSteps(lower, EMPTY, steps)
    ensures ArchivedIn(Run(lower, EMPTY, steps), id, at)
       <==> exists k: nat :: ArchivesAt(lower, EMPTY, Committed(steps), k, id, at)
  {
    hide ArchivedIn, ArchivesAt;
    var ops := Committed(steps);
    RunIsItsCommittedCalls(lower, EMPTY, steps);
    assert ops[..|ops|] == ops;
    if ArchivedIn(Execute(lower, EMPTY, ops), id, at) { var k := ArchivedBySomeone(lower, ops, |ops|, id, at); }
    if k: nat :| ArchivesAt(lower, EMPTY, ops, k, id, at) { ArchivedStays(lower, ops, k, id, at); }
  }

  /** Whatever is archived has an archive time, and nothing else has. */
  ghost predicate TimesFit(s: State) {
    forall id | id in s.assets :: s.assets[id].lifecycle == Archived <==> s.assets[id].archivedAt.Some?
  }

  lemma {:induction false} ArchiveTimesFit(lower: string -> string, s: State, ops: seq<Op>)
    requires TimesFit(s)
    ensures TimesFit(Execute(lower, s, ops))
    decreases |ops|
  {
    if ops != [] {
      assert TimesFit(Apply(lower, s, ops[0]));
      ArchiveTimesFit(lower, Apply(lower, s, ops[0]), ops[1..]);
    }
  }

  function EventsOf(ops: seq<Op>): seq<string> {
    if ops == [] then [] else (if ops[0].Append? then [ops[0].event] else []) + EventsOf(ops[1..])
  }

  lemma {:induction false} AuditGrows(lower: string -> string, s: State, ops: seq<Op>)
    ensures Execute(lower, s, ops).audit == s.audit + EventsOf(ops)
    decreases |ops|
  {
    if ops != [] {
      hide Answered;
      AuditGrows(lower, Apply(lower, s, ops[0]), ops[1..]);
    }
  }

  /** The audit log holds exactly the events of the committed calls, in order. */
  lemma AuditIsCommitted(lower: string -> string, s: State, steps: seq<Step>)
    ensures Run(lower, s, steps).audit == s.audit + EventsOf(Committed(steps))
  {
    RunIsItsCommittedCalls(lower, s, steps);
    AuditGrows(lower, s, Committed(steps));
  }

  // ---- compare and set ----

  /** The expected versions of the calls on one asset that succeeded. */
  ghost function Wins(lower: string -> string, s: State, ops: seq<Op>, id: Uuid): seq<int>
    decreases |ops|
  {
    if ops == [] then []
    else (if Won(lower, s, ops[0], id) then [ExpectedVersion(ops[0])] else [])
         + Wins(lower, Apply(lower, s, ops[0]), ops[1..], id)
  }

  /** Those of a run; what a thrown transaction did is undone and does not count. */
  ghost function CommittedWins(lower: string -> string, s: State, steps: seq<Step>, id: Uuid): seq<int>
    decreases |steps|
  {
    if steps == [] then []
    else
      (match steps[0]
       case One(op) => Wins(lower, s, [op], id)
       case Transaction(ops, throws) => if throws then [] else Wins(lower, s, ops, id))
      + CommittedWins(lower, Perform(lower, s, steps[0]), steps[1..], id)
  }

  /** An asset that does not exist yet will start at version 1. */
  function VersionOf(s: State, id: Uuid): int { if id in s.assets then s.assets[id].version else 1 }

  function Range(from: int, to: int): seq<int>
    requires from <= to
  {
    seq(to - from, i => from + i)
  }

  lemma RangeConcat(a: int, b: int, c: int)
    requires a <= b <= c
    ensures Range(a, b) + Range(b, c) == Range(a, c)
  {}

  function ExpectedVersion(op: Op): int { if op.Update? || op.Archive? then op.expectedVersion else 0 }

  ghost predicate Won(lower: string -> string, s: State, op: Op, id: Uuid) {
    (op.Update? || op.Archive?) && op.id == id && Answered(lower, s, op) == Updated
  }

  lemma ApplyVersion(lower: string -> string, s: State, op: Op, id: Uuid)
    requires op.Create? ==> op.id !in s.assets
    ensures Won(lower, s, op, id) ==> ExpectedVersion(op) == VersionOf(s, id)
    ensures VersionOf(Apply(lower, s, op), id) == VersionOf(s, id) + if Won(lower, s, op, id) then 1 else 0
  {}

  lemma {:induction false} WinsAreConsecutive(lower: string -> string, s: State, ops: seq<Op>, id: Uuid)
    requires Legal(lower, s, ops)
    ensures VersionOf(s, id) <= VersionOf(Execute(lower, s, ops), id)
    ensures Wins(lower, s, ops, id) == Range(VersionOf(s, id), VersionOf(Execute(lower, s, ops), id))
    decreases |ops|
  {
    hide Apply, Won, VersionOf;
    if ops != [] {
      var next := Apply(lower, s, ops[0]);
      ApplyVersion(lower, s, ops[0], id);
      WinsAreConsecutive(lower, next, ops[1..], id);
      RangeConcat(VersionOf(s, id), VersionOf(next, id), VersionOf(Execute(lower, s, ops), id));
      assert Won(lower, s, ops[0], id) ==> [ExpectedVersion(ops[0])] == Range(VersionOf(s, id), VersionOf(next, id));
    }
  }

  /**
   * Over every run, the successful updates and archives of an asset carried exactly the consecutive
   * versions it went through: each success raises the version by one, and for each expected version
   * there is one success at most.
   */
  lemma {:induction false} OneWinPerVersion(lower: string -> string, s: State, steps: seq<Step>, id: Uuid)
    requires LegalSteps(lower, s, steps)
    ensures VersionOf(s, id) <= VersionOf(Run(lower, s, steps), id)
    ensures CommittedWins(lower, s, steps, id) == Range(VersionOf(s, id), VersionOf(Run(lower, s, steps), id))
    decreases |steps|
  {
    hide Apply, Wins, Legal;
    if steps != [] {
      var ops := if steps[0].One? then [steps[0].op] else steps[0].ops;
      WinsAreConsecutive(lower, s, ops, id);
      assert steps[0].One? ==> ops[1..] == [] && Execute(lower, s, ops) == Apply(lower, s, steps[0].op);
      var next := Perform(lower, s, steps[0]);
      OneWinPerVersion(lower, next, steps[1..], id);
      RangeConcat(VersionOf(s, id), VersionOf(next, id), VersionOf(Run(lower, s, steps), id));
    }
  }

  // ---- rows changed in place ----

  class AssetRow {
    const id: Uuid
    const organizationId: Uuid
    var name: string
    var lifecycle: Lifecycle
    var fields: map<Field, Value>
    var version: int
    var archivedAt: Option<int>

    constructor (id: Uuid, organizationId: Uuid, name: string, lifecycle: Lifecycle, fields: map<Field, Value>,
                 version: int, archivedAt: Option<int>)
      ensures View() == Asset(id, organizationId, name, lifecycle, fields, version, archivedAt)
    {
      this.id, this.organizationId, this.name := id, organizationId, name;
      this.lifecycle, this.fields, this.version, this.archivedAt := lifecycle, fields, version, archivedAt;
    }

    function View(): Asset
      reads this
    {
      Asset(id, organizationId, name, lifecycle, fields, version, archivedAt)
    }
  }

  /** A copy that shares nothing with the row it copies. */
  method CloneAsset(row: AssetRow) returns (copy: AssetRow)
    ensures fresh(copy) && copy.View() == row.View()
  {
    copy := new AssetRow(row.id, row.organizationId, row.name, row.lifecycle, row.fields, row.version, row.archivedAt);
  }

  ghost predicate Holds(row: AssetRow, a: Asset)
    reads row
  {
    row.View() == a
  }

  lemma HoldsView(row: AssetRow)
    ensures Holds(row, row.View())
  {}

  /** The rows are among these objects and show these assets, each under its own identifier. */
  ghost predicate Show(rows: map<Uuid, AssetRow>, repr: set<AssetRow>, assets: map<Uuid, Asset>)
    reads repr
  {
    && rows.Keys == assets.Keys
    && forall id | id in rows :: rows[id] in repr && rows[id].id == id && Holds(rows[id], assets[id])
  }

  lemma Showing(rows: map<Uuid, AssetRow>, repr: set<AssetRow>, assets: map<Uuid, Asset>)
    requires rows.Keys == assets.Keys
    requires forall id | id in rows :: rows[id] in repr && rows[id].id == id && Holds(rows[id], assets[id])
    ensures Show(rows, repr, assets)
  {}

  lemma SameKeys(rows: map<Uuid, AssetRow>, repr: set<AssetRow>, assets: map<Uuid, Asset>)
    requires Show(rows, repr, assets)
    ensures rows.Keys == assets.Keys
  {}

  lemma Shown(rows: map<Uuid, AssetRow>, repr: set<AssetRow>, assets: map<Uuid, Asset>, id: Uuid)
    requires Show(rows, repr, assets)
    ensures id in rows <==> id in assets
    ensures id in rows ==> rows[id] in repr && rows[id].id == id && rows[id].View() == assets[id]
  {}

  /** Clones of all rows. */
  method CloneRows(source: map<Uuid, AssetRow>, ghost repr: set<AssetRow>, ghost assets: map<Uuid, Asset>)
    returns (copies: map<Uuid, AssetRow>, ghost made: set<AssetRow>)
    requires Show(source, repr, assets)
    ensures fresh(made) && Show(copies, made, assets)
  {
    hide Holds, Show;
    copies, made := map[], {};
    var left := source.Keys;
    SameKeys(source, repr, assets);
    while left != {}
      invariant left <= source.Keys && copies.Keys == source.Keys - left && fresh(made)
      invariant forall id | id in copies :: copies[id] in made && copies[id].id == id && Holds(copies[id], assets[id])
      decreases |left|
    {
      var id :| id in left;
      Shown(source, repr, assets, id);
      var copy := CloneAsset(source[id]);
      HoldsView(copy);
      copies, made := copies[id := copy], made + {copy};
      left := left - {id};
    }
    Showing(copies, made, assets);
  }

  class AssetStore {
    const lower: string -> string
    var rows: map<Uuid, AssetRow>
    var auditEvents: seq<string>
    ghost var repr: set<AssetRow>
    ghost var assets: map<Uuid, Asset>

    ghost predicate Valid()
      reads this, repr
    {
      Show(rows, repr, assets)
    }

    ghost function View(): State
      reads this
    {
      State(assets, auditEvents)
    }

    constructor (lower: string -> string)
      ensures Valid() && fresh(repr) && View() == State(map[], []) && this.lower == lower
    {
      this.lower, rows, auditEvents, assets, repr := lower, map[], [], map[], {};
    }

    method HasActiveNameConflict(organizationId: Uuid, name: string, exceptId: Option<Uuid>) returns (taken: bool)
      requires Valid()
      ensures taken == NameTaken(lower, assets, organizationId, name, exceptId)
    {
      var left := rows.Keys;
      taken := false;
      while left != {} && !taken
        invariant left <= rows.Keys
        invariant !taken ==> forall id | id in rows && id !in left ::
            !Clashes(lower, assets[id], organizationId, name, exceptId)
        invariant taken ==> NameTaken(lower, assets, organizationId, name, exceptId)
        decreases |left|
      {
        var id :| id in left;
        taken := Clashes(lower, rows[id].View(), organizationId, name, exceptId);
        left := left - {id};
      }
    }

    method CreateAggregate(id: Uuid, organizationId: Uuid, name: string, fields: map<Field, Value>)
      returns (answer: Answer, clone: AssetRow?)
      requires Valid() && id !in rows
      modifies this
      ensures Valid() && fresh(repr - old(repr))
      ensures answer == Answered(lower, old(View()), Create(id, organizationId, name, fields))
      ensures View() == Apply(lower, old(View()), Create(id, organizationId, name, fields))
      ensures (clone != null) == (answer == Created)
      ensures clone != null ==> fresh(clone) && clone !in repr && clone.View() == View().assets[id]
      ensures clone != null ==>
        && clone.View() == Asset(id, organizationId, name, Active, fields, 1, None)
        && assets == old(assets)[id := clone.View()]
    {
      hide NameTaken, Holds, Show;
      clone := null;
      var taken := HasActiveNameConflict(organizationId, name, None);
      if taken {
        return NameConflict, null;
      }
      var detail := new AssetRow(id, organizationId, name, Active, fields, 1, None);
      clone := CloneAsset(detail);
      AddRow(detail);
      answer := Created;
    }

    method AddRow(detail: AssetRow)
      requires Valid() && detail.id !in rows
      modifies this
      ensures Valid() && repr == old(repr) + {detail} && auditEvents == old(auditEvents)
      ensures assets == old(assets)[detail.id := detail.View()]
    {
      hide Holds;
      HoldsView(detail);
      rows := rows[detail.id := detail];
      assets, repr := assets[detail.id := detail.View()], repr + {detail};
    }

    /** Writes the new values into the row itself. */
    method ChangeRow(assetId: Uuid, newName: Option<string>, patch: map<Field, Value>)
      requires Valid() && assetId in rows
      modifies this`assets, rows[assetId]
      ensures Valid() && assets == old(assets)[assetId := Changed(old(assets[assetId]), newName, patch)]
    {
      hide Holds;
      Shown(rows, repr, assets, assetId);
      var current := rows[assetId];
      if newName.Some? {
        current.name := newName.value;
      }
      current.fields := current.fields + patch;
      current.version := current.version + 1;
      assets := assets[assetId := current.View()];
      HoldsView(current);
    }

    method ArchiveRow(assetId: Uuid, at: int)
      requires Valid() && assetId in rows
      modifies this`assets, rows[assetId]
      ensures Valid() && assets == old(assets)[assetId := Retired(old(assets[assetId]), at)]
    {
      hide Holds;
      Shown(rows, repr, assets, assetId);
      var current := rows[assetId];
      current.lifecycle := Archived;
      current.archivedAt := Some(at);
      current.version := current.version + 1;
      assets := assets[assetId := current.View()];
      HoldsView(current);
    }

    method CompareAndSetUpdate(organizationId: Uuid, assetId: Uuid, expectedVersion: int, newName: Option<string>,
                               patch: map<Field, Value>)
      returns (answer: Answer, clone: AssetRow?)
      requires Valid()
      modifies this`assets, repr
      ensures Valid()
      ensures answer == Answered(lower, old(View()), Update(organizationId, assetId, expectedVersion, newName, patch))
      ensures View() == Apply(lower, old(View()), Update(organizationId, assetId, expectedVersion, newName, patch))
      ensures (clone != null) == (answer in {Updated, AlreadyArchived, VersionConflict})
      ensures clone != null ==> fresh(clone) && clone !in repr && assetId in assets && clone.View() == assets[assetId]
      ensures answer == NotFound <==> assetId !in old(assets) || old(assets)[assetId].organizationId != organizationId
      ensures answer == AlreadyArchived <==> answer != NotFound && old(assets)[assetId].lifecycle == Archived
      ensures answer == VersionConflict
         <==> answer !in {NotFound, AlreadyArchived} && old(assets)[assetId].version != expectedVersion
      ensures answer == Updated ==>
        var was, a := old(assets)[assetId], assets[assetId];
        && assets == old(assets)[assetId := a] && a.id == was.id && a.organizationId == was.organizationId
        && a.name == (if newName.Some? then newName.value else was.name) && a.version == expectedVersion + 1
        && a.fields.Keys == was.fields.Keys + patch.Keys && a.lifecycle == Active && a.archivedAt == was.archivedAt
        && forall f | f in a.fields :: a.fields[f] == if f in patch then patch[f] else was.fields[f]
      ensures answer != Updated ==> assets == old(assets)
    {
      hide NameTaken, Show;
      clone := null;
      Shown(rows, repr, assets, assetId);
      if assetId !in rows || rows[assetId].organizationId != organizationId {
        return NotFound, null;
      }
      var current := rows[assetId];
      if current.lifecycle == Archived {
        clone := CloneAsset(current);
        return AlreadyArchived, clone;
      }
      if current.version != expectedVersion {
        clone := CloneAsset(current);
        return VersionConflict, clone;
      }
      if newName.Some? {
        var taken := HasActiveNameConflict(organizationId, newName.value, Some(assetId));
        if taken {
          return NameConflict, null;
        }
      }
      ChangeRow(assetId, newName, patch);
      Shown(rows, repr, assets, assetId);
      clone := CloneAsset(current);
      answer := Updated;
    }

    method CompareAndSetArchive(organizationId: Uuid, assetId: Uuid, expectedVersion: int, at: int)
      returns (answer: Answer, clone: AssetRow?)
      requires Valid()
      modifies this`assets, repr
      ensures Valid()
      ensures answer == Answered(lower, old(View()), Archive(organizationId, assetId, expectedVersion, at))
      ensures View() == Apply(lower, old(View()), Archive(organizationId, assetId, expectedVersion, at))
      ensures (clone != null) == (answer != NotFound)
      ensures clone != null ==> fresh(clone) && clone !in repr && assetId in assets && clone.View() == assets[assetId]
      ensures answer == NotFound <==> assetId !in old(assets) || old(assets)[assetId].organizationId != organizationId
      ensures answer == AlreadyArchived <==> answer != NotFound && old(assets)[assetId].lifecycle == Archived
      ensures answer == VersionConflict
         <==> answer !in {NotFound, AlreadyArchived} && old(assets)[assetId].version != expectedVersion
      ensures answer == Updated ==>
        assets == old(assets)[assetId := old(assets)[assetId].(lifecycle := Archived, archivedAt := Some(at),
                                                               version := expectedVersion + 1)]
      ensures answer != Updated ==> assets == old(assets)
    {
      hide Show;
      clone := null;
      Shown(rows, repr, assets, assetId);
      if assetId !in rows || rows[assetId].organizationId != organizationId {
        return NotFound, null;
      }
      var current := rows[assetId];
      if current.lifecycle == Archived {
        clone := CloneAsset(current);
        return AlreadyArchived, clone;
      }
      if current.version != expectedVersion {
        clone := CloneAsset(current);
        return VersionConflict, clone;
      }
      ArchiveRow(assetId, at);
      Shown(rows, repr, assets, assetId);
      clone := CloneAsset(current);
      answer := Updated;
    }

    method AppendAudit(event: string)
      requires Valid()
      modifies this`auditEvents
      ensures Valid() && View() == Apply(lower, old(View()), Append(event))
    {
      auditEvents := auditEvents + [event];
    }

    method Call(op: Op)
      requires Valid() && (op.Create? ==> op.id !in rows)
      modifies this, repr
      ensures Valid() && fresh(repr - old(repr))
      ensures View() == Apply(lower, old(View()), op)
    {
      match op
      case Create(id, org, name, fields) => var _, _ := CreateAggregate(id, org, name, fields);
      case Update(org, id, expected, newName, patch) =>
        var _, _ := CompareAndSetUpdate(org, id, expected, newName, patch);
      case Archive(org, id, expected, at) => var _, _ := CompareAndSetArchive(org, id, expected, at);
      case Append(event) => AppendAudit(event);
    }

    /** The calls of a piece of work, one after the other. */
    method Work(ops: seq<Op>)
      requires Valid() && Legal(lower, View(), ops)
      modifies this, repr
      ensures Valid() && fresh(repr - old(repr))
      ensures View() == Execute(lower, old(View()), ops)
      decreases |ops|
    {
      if ops != [] {
        Call(ops[0]);
        Work(ops[1..]);
      }
    }

    /**
     * Runs the work against the live rows, which it changes in place; when it throws, the rows are
     * replaced by clones of the clones taken before it started, and the audit log is cut back.
     */
    method RunInTransaction(ops: seq<Op>, throws: bool)
      requires Valid() && Legal(lower, View(), ops)
      modifies this, repr
      ensures Valid() && fresh(repr - old(repr))
      ensures View() == Perform(lower, old(View()), Transaction(ops, throws))
    {
      hide Execute, Legal, Show;
      ghost var before := assets;
      var snapshotAssets, clones := CloneRows(rows, repr, before);
      var snapshotAudits := auditEvents;
      assert clones !! repr;
      Work(ops);
      if throws {
        rows, repr := CloneRows(snapshotAssets, clones, before);
        auditEvents, assets := snapshotAudits, before;
      }
    }
  }
}

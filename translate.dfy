/** The 2.0.0 -> 1.0.4 schema translation of VisTrails documents
    (vistrails/db/versions/v1_0_4/translate/v2_0_0.py): per-document
    translators for the vistrail (version history), workflow, log and
    registry, the group hook that translates each group's embedded workflow
    under its own id remap, and the bundle coordinator that passes remap state
    from one document to the next.

    The schema rules (`update_version`), the renumbering copy (`do_copy`) and
    the id scopes live in a domain module that is not part of this model; they
    are the opaque functions of a `Domain` value. */
module Translate {
  import opened Wrappers
  import Decimal

  /** An id of the old schema: an integer, or a UUID string as in 2.0.0. */
  datatype OldId = IntId(n: int) | UuidId(s: string)

  /** (entity type, old id). */
  type RemapKey = (string, OldId)

  /** The `id_remap` dictionary: (entity type, old id) -> new id. */
  type IdRemap = map<RemapKey, int>

  const ActionType := "action"
  const AnnotationType := "annotation"
  const ModuleType := "module"
  const GroupType := "group"
  const AbstractionType := "abstraction"

  /** The sentinel key of the root action. */
  const RootActionKey: RemapKey := (ActionType, UuidId("00000000-0000-0000-0000-000000000000"))

  /** The action-annotation key whose value is an action id. */
  const UpgradeKey := "__upgrade__"

  const TargetVersion := "1.0.4"

  /** The translate-dict key of the group rule. */
  const GroupEntry := "DBGroup"

  datatype Kind = VistrailKind | WorkflowKind | LogKind | RegistryKind

  /** The id scope handed to `do_copy`: the document's own, or one that
      allocates some entity types from another type's counter. */
  datatype Scope = OwnScope(kind: Kind) | AliasedScope(aliases: map<string, string>)

  /** The workflow scope allocates abstraction and group ids as module ids. */
  function ScopeOf(kind: Kind): Scope {
    if kind == WorkflowKind then AliasedScope(map[AbstractionType := ModuleType, GroupType := ModuleType])
    else OwnScope(kind)
  }

  datatype ActionAnnotation = ActionAnnotation(id: OldId, actionId: OldId, key: string, value: string)

  /** The part of a document the opaque domain code reshapes and renumbers:
      its id-bearing entities and its action annotations. */
  datatype Body = Body(entities: seq<RemapKey>, actionAnnotations: seq<ActionAnnotation>)

  /** A document with its version tag and the groups met while upgrading it. */
  datatype Doc = Doc(version: string, body: Body, groups: seq<Group>)

  /** A group and the workflow it embeds. */
  datatype Group = Group(id: OldId, workflow: Doc)

  /** The domain module: `update_version` (reshaping, ids unchanged),
      `do_copy` (renumbering: the new body and the mappings it allocated for
      ids it had not seen), caller-supplied group rules, and the default
      field rules that translate a group when the translate dict has no
      group entry. */
  datatype Domain = Domain(
    upgrade: (Kind, Body) -> Body,
    copy: (Scope, Body, IdRemap) -> (Body, IdRemap),
    supplied: (string, Group) -> Doc,
    plain: Group -> Doc)

  datatype TranslateError =
    | MissingRemap(key: RemapKey)   // KeyError on an id_remap lookup
    | MissingIdRemap                // KeyError on extdata["id_remap"]

  // ---------------------------------------------------------------------------
  // Mutable dictionaries

  /** A `group_remaps` dictionary: old group id -> that group's id remap. */
  class GroupRemapTable {
    var remaps: map<OldId, IdRemap>
    constructor (m: map<OldId, IdRemap>)
      ensures remaps == m
    {
      remaps := m;
    }
  }

  /** A translate-dict entry for groups: the `update_workflow` closure over a
      group-remap table, or a rule the caller supplied. */
  datatype Hook = UpdateWorkflow(table: GroupRemapTable) | Supplied(tag: string)

  /** A `translate_dict` dictionary. */
  class TranslateDict {
    var entries: map<string, Hook>
    constructor (m: map<string, Hook>)
      ensures entries == m
    {
      entries := m;
    }
  }

  /** An `external_data` dictionary; each of its three keys may be absent. */
  class ExtData {
    var idRemap: Option<IdRemap>
    var groupRemaps: Option<GroupRemapTable>
    var translateDict: Option<TranslateDict>
    constructor (r: Option<IdRemap>, g: Option<GroupRemapTable>, t: Option<TranslateDict>)
      ensures idRemap == r && groupRemaps == g && translateDict == t
    {
      idRemap, groupRemaps, translateDict := r, g, t;
    }
  }

  /** The table the group entry of a translate dict writes to, if any. */
  function HookTables(td: TranslateDict): set<GroupRemapTable>
    reads td
  {
    HookTableOf(td.entries)
  }

  function HookTableOf(entries: map<string, Hook>): set<GroupRemapTable> {
    if GroupEntry in entries && entries[GroupEntry].UpdateWorkflow?
    then {entries[GroupEntry].table} else {}
  }

  /** Merging two translate dicts installs no group hook neither had. */
  lemma HookTableOfMerge(a: map<string, Hook>, b: map<string, Hook>)
    ensures HookTableOf(a + b) <= HookTableOf(a) + HookTableOf(b)
  {
  }

  /** The entries of an optional translate dict (none when absent). */
  function EntriesOf(ext: ExtData): map<string, Hook>
    reads ext, DictOf(ext)
  {
    if ext.translateDict.Some? then ext.translateDict.value.entries else map[]
  }

  function TableOf(ext: ExtData?): set<GroupRemapTable>
    reads ext
  {
    if ext != null && ext.groupRemaps.Some? then {ext.groupRemaps.value} else {}
  }

  /** The caller's translate dict, as a frame. */
  function DictOf(ext: ExtData?): set<TranslateDict>
    reads ext
  {
    if ext != null && ext.translateDict.Some? then {ext.translateDict.value} else {}
  }

  /** The table of the group hook already installed in the caller's dict. */
  function HookTablesOf(ext: ExtData?): set<GroupRemapTable>
    reads ext, DictOf(ext)
  {
    if ext != null && ext.translateDict.Some? then HookTables(ext.translateDict.value) else {}
  }

  /** Everything an `external_data` dictionary reaches. */
  function ExtObjects(ext: ExtData?): set<object>
    reads ext, DictOf(ext)
  {
    if ext == null then {} else {ext} + TableOf(ext) + DictOf(ext) + HookTablesOf(ext)
  }

  // ---------------------------------------------------------------------------
  // Remap values

  /** The group's remap, or an empty one when the group has none yet. */
  function LookupGroup(m: map<OldId, IdRemap>, id: OldId): IdRemap {
    if id in m then m[id] else map[]
  }

  /** The root sentinel is mapped to 0 unless the caller already mapped it. */
  function SeedRoot(remap: IdRemap): (r: IdRemap)
    ensures RootActionKey in r
    ensures r[RootActionKey] == if RootActionKey in remap then remap[RootActionKey] else 0
    ensures forall k :: k != RootActionKey ==> (k in r <==> k in remap)
    ensures forall k :: k in remap ==> k in r && r[k] == remap[k]
  {
    if RootActionKey in remap then remap else remap[RootActionKey := 0]
  }

  /** The body a translator outputs: the upgraded body copied under `seed`. */
  function CopiedBody(dom: Domain, kind: Kind, body: Body, seed: IdRemap): Body {
    dom.copy(ScopeOf(kind), dom.upgrade(kind, body), seed).0
  }

  /** The remap after `do_copy`: the seed with the new mappings added. */
  function CopyRemap(dom: Domain, kind: Kind, body: Body, seed: IdRemap): (r: IdRemap)
    ensures forall k :: k in seed ==> k in r && r[k] == seed[k]
    ensures forall k :: k in r && k !in seed ==> k in dom.copy(ScopeOf(kind), dom.upgrade(kind, body), seed).1
  {
    dom.copy(ScopeOf(kind), dom.upgrade(kind, body), seed).1 + seed
  }

  // ---------------------------------------------------------------------------
  // Group ids

  /** The ids of a group and of every group nested in its workflow. */
  function AllIds(g: Group): set<OldId>
    decreases g, 1
  {
    {g.id} + GroupIds(g.workflow.groups)
  }

  function GroupIds(gs: seq<Group>): set<OldId>
    decreases gs, 0
  {
    if gs == [] then {} else GroupIds(gs[..|gs| - 1]) + AllIds(gs[|gs| - 1])
  }

  /** `after` differs from `before` only at the ids in `ids`. */
  predicate Preserves(before: map<OldId, IdRemap>, after: map<OldId, IdRemap>, ids: set<OldId>) {
    && (forall g :: g in before && g !in ids ==> g in after && after[g] == before[g])
    && (forall g :: g in after ==> g in before || g in ids)
  }

  // ---------------------------------------------------------------------------
  // The `__upgrade__` annotation fix-up

  /** The remap key an upgrade annotation's value names. */
  function ValueKey(a: ActionAnnotation): RemapKey {
    (ActionType, UuidId(a.value))
  }

  /** One turn of the loop over the action annotations. */
  function FixupStep(acc: Result<(seq<ActionAnnotation>, seq<ActionAnnotation>), TranslateError>,
                     a: ActionAnnotation, remap: IdRemap)
    : Result<(seq<ActionAnnotation>, seq<ActionAnnotation>), TranslateError>
  {
    match acc
    case Failure(e) => Failure(e)
    case Success((kept, moved)) =>
      if a.key != UpgradeKey then Success((kept + [a], moved))
      else if ValueKey(a) !in remap then Failure(MissingRemap(ValueKey(a)))
      else Success((kept, moved + [a.(value := Decimal.IntToString(remap[ValueKey(a)]))]))
  }

  /** The loop over the action annotations as a function of its input: the
      annotations left in place and those deleted and re-added at the end
      with their value renumbered. */
  function Fixup(anns: seq<ActionAnnotation>, remap: IdRemap)
    : Result<(seq<ActionAnnotation>, seq<ActionAnnotation>), TranslateError>
  {
    if anns == [] then Success(([], []))
    else FixupStep(Fixup(anns[..|anns| - 1], remap), anns[|anns| - 1], remap)
  }

  lemma FixupPrefix(anns: seq<ActionAnnotation>, remap: IdRemap, i: nat)
    requires i < |anns|
    ensures Fixup(anns[..i + 1], remap) == FixupStep(Fixup(anns[..i], remap), anns[i], remap)
  {
    assert anns[..i + 1][..i] == anns[..i];
  }

  /** The loop's turn on an annotation it leaves in place. */
  lemma FixupKeep(anns: seq<ActionAnnotation>, remap: IdRemap, i: nat,
                  kept: seq<ActionAnnotation>, moved: seq<ActionAnnotation>)
    requires i < |anns| && Fixup(anns[..i], remap) == Success((kept, moved)) && anns[i].key != UpgradeKey
    ensures Fixup(anns[..i + 1], remap) == Success((kept + [anns[i]], moved))
  {
    FixupPrefix(anns, remap, i);
  }

  /** The loop's turn on an upgrade annotation whose action is remapped. */
  lemma FixupMove(anns: seq<ActionAnnotation>, remap: IdRemap, i: nat,
                  kept: seq<ActionAnnotation>, moved: seq<ActionAnnotation>)
    requires i < |anns| && Fixup(anns[..i], remap) == Success((kept, moved))
    requires anns[i].key == UpgradeKey && ValueKey(anns[i]) in remap
    ensures Fixup(anns[..i + 1], remap) ==
            Success((kept, moved + [anns[i].(value := Decimal.IntToString(remap[ValueKey(anns[i])]))]))
  {
    FixupPrefix(anns, remap, i);
  }

  /** The loop's turn on an upgrade annotation whose action is not
      remapped ends the fix-up. */
  lemma FixupStop(anns: seq<ActionAnnotation>, remap: IdRemap, i: nat,
                  kept: seq<ActionAnnotation>, moved: seq<ActionAnnotation>)
    requires i < |anns| && Fixup(anns[..i], remap) == Success((kept, moved))
    requires anns[i].key == UpgradeKey && ValueKey(anns[i]) !in remap
    ensures FixupResult(anns, remap) == Failure(MissingRemap(ValueKey(anns[i])))
  {
    FixupPrefix(anns, remap, i);
    FixupFailure(anns, remap, i + 1);
  }

  /** The action annotations after the fix-up. */
  function FixupResult(anns: seq<ActionAnnotation>, remap: IdRemap): Result<seq<ActionAnnotation>, TranslateError> {
    match Fixup(anns, remap)
    case Failure(e) => Failure(e)
    case Success((kept, moved)) => Success(kept + moved)
  }

  function OtherAnnotations(anns: seq<ActionAnnotation>): seq<ActionAnnotation> {
    if anns == [] then []
    else OtherAnnotations(anns[..|anns| - 1]) +
         (if anns[|anns| - 1].key != UpgradeKey then [anns[|anns| - 1]] else [])
  }

  function UpgradeAnnotations(anns: seq<ActionAnnotation>): seq<ActionAnnotation> {
    if anns == [] then []
    else UpgradeAnnotations(anns[..|anns| - 1]) +
         (if anns[|anns| - 1].key == UpgradeKey then [anns[|anns| - 1]] else [])
  }

  /** The fix-up fails exactly when some upgrade annotation names an action
      the remap does not know, and then reports that key. */
  lemma {:induction false} FixupFailsIffUnknownAction(anns: seq<ActionAnnotation>, remap: IdRemap)
    ensures Fixup(anns, remap).Success? <==>
            forall i :: 0 <= i < |anns| && anns[i].key == UpgradeKey ==> ValueKey(anns[i]) in remap
    ensures Fixup(anns, remap).Failure? ==>
            exists i :: 0 <= i < |anns| && anns[i].key == UpgradeKey && ValueKey(anns[i]) !in remap &&
                        Fixup(anns, remap).error == MissingRemap(ValueKey(anns[i]))
  {
    if anns != [] {
      var n := |anns| - 1;
      FixupFailsIffUnknownAction(anns[..n], remap);
      assert forall i :: 0 <= i < n ==> anns[..n][i] == anns[i];
      if Fixup(anns[..n], remap).Failure? {
        var i :| 0 <= i < n && anns[..n][i].key == UpgradeKey && ValueKey(anns[..n][i]) !in remap &&
                 Fixup(anns[..n], remap).error == MissingRemap(ValueKey(anns[..n][i]));
        assert anns[i] == anns[..n][i];
      }
    }
  }

  /** On success the other annotations stay in place, in order, and the
      upgrade annotations follow them, in order, each with its value replaced
      by the decimal new id of the action it named; nothing else changes. */
  lemma {:induction false} FixupSuccess(anns: seq<ActionAnnotation>, remap: IdRemap)
    requires Fixup(anns, remap).Success?
    ensures Fixup(anns, remap).value.0 == OtherAnnotations(anns)
    ensures var moved := Fixup(anns, remap).value.1;
            var ups := UpgradeAnnotations(anns);
            && |moved| == |ups|
            && forall j :: 0 <= j < |moved| ==>
                 && ValueKey(ups[j]) in remap
                 && moved[j] == ups[j].(value := Decimal.IntToString(remap[ValueKey(ups[j])]))
                 && Decimal.ParseInt(moved[j].value) == Some(remap[ValueKey(ups[j])])
  {
    if anns != [] {
      var n := |anns| - 1;
      FixupSuccess(anns[..n], remap);
      var a := anns[n];
      if a.key == UpgradeKey {
        Decimal.IntToStringRoundTrip(remap[ValueKey(a)]);
      }
    }
  }

  /** Every annotation whose key is not `__upgrade__` is kept unchanged, and
      the fix-up neither adds nor loses annotations. */
  lemma {:induction false} FixupKeepsOthers(anns: seq<ActionAnnotation>, remap: IdRemap)
    requires Fixup(anns, remap).Success?
    ensures |FixupResult(anns, remap).value| == |anns|
    ensures forall a :: a in anns && a.key != UpgradeKey ==> a in FixupResult(anns, remap).value
    ensures forall a :: a in FixupResult(anns, remap).value && a.key != UpgradeKey ==> a in anns
  {
    if anns != [] {
      var n := |anns| - 1;
      FixupKeepsOthers(anns[..n], remap);
      assert anns == anns[..n] + [anns[n]];
    }
  }

  /** Removes the first occurrence of `x`, as deleting an annotation does. */
  function RemoveFirst<T(==)>(s: seq<T>, x: T): seq<T> {
    if s == [] then [] else if s[0] == x then s[1..] else [s[0]] + RemoveFirst(s[1..], x)
  }

  lemma {:induction false} RemoveFirstAfter<T>(a: seq<T>, x: T, b: seq<T>)
    requires x !in a
    ensures RemoveFirst(a + [x] + b, x) == a + b
  {
    var s := a + [x] + b;
    if a == [] {
      assert s == [x] + b;
      assert s[0] == x && s[1..] == b;
    } else {
      assert s[0] == a[0] && a[0] != x;
      assert s[1..] == a[1..] + [x] + b;
      RemoveFirstAfter(a[1..], x, b);
      assert RemoveFirst(s, x) == [a[0]] + (a[1..] + b);
      assert [a[0]] + (a[1..] + b) == a + b;
    }
  }

  /** No annotation in `anns` has the key `__upgrade__`. */
  predicate UpgradeKeyFree(anns: seq<ActionAnnotation>) {
    forall j :: 0 <= j < |anns| ==> anns[j].key != UpgradeKey
  }

  /** `db_delete_annotation`: deleting an annotation that occurs once, after
      annotations that differ from it, removes exactly that one. */
  method DeleteAnnotation(anns: seq<ActionAnnotation>, ann: ActionAnnotation,
                          ghost before: seq<ActionAnnotation>, ghost after: seq<ActionAnnotation>)
    returns (r: seq<ActionAnnotation>)
    requires anns == before + [ann] + after && ann !in before
    ensures r == before + after
  {
    r := RemoveFirst(anns, ann);
    RemoveFirstAfter(before, ann, after);
  }

  /** The loop's work on one `__upgrade__` annotation: delete it, renumber its
      value through the remap (a KeyError when the action is not remapped) and
      add it back at the end. */
  method MoveUpgrade(anns: seq<ActionAnnotation>, ann: ActionAnnotation, remap: IdRemap,
                     ghost before: seq<ActionAnnotation>, ghost after: seq<ActionAnnotation>)
    returns (r: Result<seq<ActionAnnotation>, TranslateError>)
    requires anns == before + [ann] + after && ann !in before
    ensures ValueKey(ann) !in remap ==> r == Failure(MissingRemap(ValueKey(ann)))
    ensures ValueKey(ann) in remap ==>
      r == Success(before + after + [ann.(value := Decimal.IntToString(remap[ValueKey(ann)]))])
  {
    var rest := DeleteAnnotation(anns, ann, before, after);
    if ValueKey(ann) !in remap {
      return Failure(MissingRemap(ValueKey(ann)));
    }
    var fixed := ann.(value := Decimal.IntToString(remap[ValueKey(ann)]));
    r := Success(rest + [fixed]);
  }

  /** Taking the head off the unvisited part. */
  lemma HeadLayout(kept: seq<ActionAnnotation>, snapshot: seq<ActionAnnotation>, i: nat,
                   moved: seq<ActionAnnotation>)
    requires i < |snapshot|
    ensures kept + snapshot[i..] + moved == kept + [snapshot[i]] + (snapshot[i + 1..] + moved)
  {
    assert snapshot[i..] == [snapshot[i]] + snapshot[i + 1..];
  }

  /** Adding a renumbered annotation at the end. */
  lemma TailLayout(kept: seq<ActionAnnotation>, rest: seq<ActionAnnotation>, moved: seq<ActionAnnotation>,
                   fixed: ActionAnnotation)
    ensures kept + (rest + moved) + [fixed] == kept + rest + (moved + [fixed])
  {
  }

  lemma UpgradeNotKept(kept: seq<ActionAnnotation>, ann: ActionAnnotation)
    requires UpgradeKeyFree(kept) && ann.key == UpgradeKey
    ensures ann !in kept
  {
  }

  /** Passing over an annotation that stays in place. */
  lemma KeepLayout(kept: seq<ActionAnnotation>, snapshot: seq<ActionAnnotation>, i: nat,
                   moved: seq<ActionAnnotation>)
    requires i < |snapshot|
    ensures kept + snapshot[i..] + moved == (kept + [snapshot[i]]) + snapshot[i + 1..] + moved
  {
    assert snapshot[i..] == [snapshot[i]] + snapshot[i + 1..];
  }

  /** One turn of the loop that renumbers `__upgrade__` annotation values, on
      the `i`th annotation of the snapshot: an upgrade annotation is deleted,
      its value replaced, and added back; any other is passed over. */
  method FixupTurn(current: seq<ActionAnnotation>, ann: ActionAnnotation, remap: IdRemap,
                   ghost snapshot: seq<ActionAnnotation>, ghost i: nat,
                   ghost kept: seq<ActionAnnotation>, ghost moved: seq<ActionAnnotation>)
    returns (next: Result<seq<ActionAnnotation>, TranslateError>,
             ghost kept': seq<ActionAnnotation>, ghost moved': seq<ActionAnnotation>)
    requires i < |snapshot| && ann == snapshot[i]
    requires Fixup(snapshot[..i], remap) == Success((kept, moved))
    requires current == kept + snapshot[i..] + moved && UpgradeKeyFree(kept)
    ensures next.Failure? ==> next == FixupResult(snapshot, remap)
    ensures next.Success? ==>
      && Fixup(snapshot[..i + 1], remap) == Success((kept', moved'))
      && next.value == kept' + snapshot[i + 1..] + moved' && UpgradeKeyFree(kept')
  {
    if ann.key == UpgradeKey {
      HeadLayout(kept, snapshot, i, moved);
      UpgradeNotKept(kept, ann);
      next := MoveUpgrade(current, ann, remap, kept, snapshot[i + 1..] + moved);
      kept', moved' := kept, moved;
      if next.Failure? {
        FixupStop(snapshot, remap, i, kept, moved);
        return;
      }
      ghost var fixed := ann.(value := Decimal.IntToString(remap[ValueKey(ann)]));
      FixupMove(snapshot, remap, i, kept, moved);
      TailLayout(kept, snapshot[i + 1..], moved, fixed);
      moved' := moved + [fixed];
    } else {
      FixupKeep(snapshot, remap, i, kept, moved);
      KeepLayout(kept, snapshot, i, moved);
      next := Success(current);
      kept', moved' := kept + [ann], moved;
    }
  }

  /** The loop that renumbers `__upgrade__` annotation values over a snapshot
      of the action annotations; the result is the annotation list after it,
      or the KeyError of the first upgrade annotation whose action is not
      remapped. */
  method RemapUpgradeAnnotations(anns: seq<ActionAnnotation>, remap: IdRemap)
    returns (r: Result<seq<ActionAnnotation>, TranslateError>)
    ensures r == FixupResult(anns, remap)
  {
    var snapshot := anns;
    var current := anns;
    ghost var kept: seq<ActionAnnotation> := [];
    ghost var moved: seq<ActionAnnotation> := [];
    for i := 0 to |snapshot|
      invariant Fixup(snapshot[..i], remap) == Success((kept, moved))
      invariant current == kept + snapshot[i..] + moved
      invariant UpgradeKeyFree(kept)
    {
      var next;
      next, kept, moved := FixupTurn(current, snapshot[i], remap, snapshot, i, kept, moved);
      if next.Failure? {
        return next;
      }
      current := next.value;
    }
    assert snapshot[..|snapshot|] == snapshot && snapshot[|snapshot|..] == [];
    assert Fixup(anns, remap) == Success((kept, moved));
    assert current == kept + moved;
    r := Success(current);
  }

  lemma {:induction false} FixupFailure(anns: seq<ActionAnnotation>, remap: IdRemap, k: nat)
    requires k <= |anns| && Fixup(anns[..k], remap).Failure?
    ensures FixupResult(anns, remap) == Failure(Fixup(anns[..k], remap).error)
    decreases |anns| - k
  {
    if k < |anns| {
      var n := |anns| - 1;
      assert anns[..n][..k] == anns[..k];
      FixupFailure(anns[..n], remap, k);
    } else {
      assert anns[..k] == anns;
    }
  }

  // ---------------------------------------------------------------------------
  // The group rule and the translation of a document with its groups

  /** How `update_version` translates a group it meets: through the
      `update_workflow` hook over a group-remap table, through a rule the
      caller supplied, or by the default field rules when the translate dict
      has no group entry. */
  datatype Rule = TableRule | SuppliedRule(tag: string) | PlainRule

  function RuleIn(td: TranslateDict): Rule
    reads td
  {
    if GroupEntry !in td.entries then PlainRule
    else match td.entries[GroupEntry]
      case UpdateWorkflow(_) => TableRule
      case Supplied(tag) => SuppliedRule(tag)
  }

  /** The contents of the table the group hook writes to (empty if none). */
  function TablesIn(td: TranslateDict): map<OldId, IdRemap>
    reads td, HookTables(td)
  {
    if GroupEntry in td.entries && td.entries[GroupEntry].UpdateWorkflow?
    then td.entries[GroupEntry].table.remaps else map[]
  }

  /** A document translated under `seed`: the output document, the remap
      `do_copy` leaves, and the group-remap table after every group met on
      the way was translated. */
  function DocSpec(dom: Domain, rule: Rule, kind: Kind, d: Doc, seed: IdRemap, tables: map<OldId, IdRemap>)
    : (r: (Doc, IdRemap, map<OldId, IdRemap>))
    ensures r.0.version == TargetVersion && |r.0.groups| == |d.groups|
    ensures r.0.body == CopiedBody(dom, kind, d.body, seed) && r.1 == CopyRemap(dom, kind, d.body, seed)
    ensures rule == TableRule ==> forall i :: 0 <= i < |r.0.groups| ==> r.0.groups[i].workflow.version == TargetVersion
    decreases d, 2
  {
    var (groups, after) := GroupsSpec(dom, rule, d.groups, tables);
    (Doc(TargetVersion, CopiedBody(dom, kind, d.body, seed), groups), CopyRemap(dom, kind, d.body, seed), after)
  }

  /** The groups, translated in order, each seeing the table its
      predecessors left. */
  function GroupsSpec(dom: Domain, rule: Rule, gs: seq<Group>, tables: map<OldId, IdRemap>)
    : (r: (seq<Group>, map<OldId, IdRemap>))
    ensures |r.0| == |gs| && forall i :: 0 <= i < |gs| ==> r.0[i].id == gs[i].id
    ensures rule == TableRule ==> forall i :: 0 <= i < |r.0| ==> r.0[i].workflow.version == TargetVersion
    decreases gs, 1
  {
    if gs == [] then ([], tables)
    else
      var (docs, mid) := GroupsSpec(dom, rule, gs[..|gs| - 1], tables);
      var (w, after) := GroupSpec(dom, rule, gs[|gs| - 1], mid);
      (docs + [w], after)
  }

  /** One group, with its workflow replaced by the translated one. Under the
      hook, the workflow is translated under the remap stored for the group's
      old id (empty if none), and the resulting remap is stored back under
      that id. */
  function GroupSpec(dom: Domain, rule: Rule, g: Group, tables: map<OldId, IdRemap>)
    : (r: (Group, map<OldId, IdRemap>))
    ensures r.0.id == g.id
    ensures rule == TableRule ==> r.0.workflow.version == TargetVersion
    decreases g, 0
  {
    match rule
    case TableRule =>
      var (w, remap, after) := DocSpec(dom, rule, WorkflowKind, g.workflow, LookupGroup(tables, g.id), tables);
      (g.(workflow := w), after[g.id := remap])
    case SuppliedRule(tag) => (g.(workflow := dom.supplied(tag, g)), tables)
    case PlainRule => (g.(workflow := dom.plain(g)), tables)
  }

  /** The vistrail translated under the caller's remap with the root
      sentinel seeded. */
  function VistrailDoc(dom: Domain, rule: Rule, v: Doc, seed: IdRemap, tables: map<OldId, IdRemap>)
    : (Doc, IdRemap, map<OldId, IdRemap>)
  {
    DocSpec(dom, rule, VistrailKind, v, SeedRoot(seed), tables)
  }

  /** translateVistrail as a function: the root sentinel seeded, the
      document translated, then the upgrade annotations renumbered through
      the remap `do_copy` left. */
  function VistrailSpec(dom: Domain, rule: Rule, v: Doc, seed: IdRemap, tables: map<OldId, IdRemap>)
    : (r: (Result<Doc, TranslateError>, IdRemap, map<OldId, IdRemap>))
    ensures r.0.Success? ==> r.0.value.version == TargetVersion
    ensures r.0.Failure? ==> r.0.error.MissingRemap?
  {
    var (d, remap, after) := VistrailDoc(dom, rule, v, seed, tables);
    FixupFailsIffUnknownAction(d.body.actionAnnotations, remap);
    (WithAnnotations(d, FixupResult(d.body.actionAnnotations, remap)), remap, after)
  }

  /** The document with its action annotations replaced, or the error. */
  function WithAnnotations(d: Doc, anns: Result<seq<ActionAnnotation>, TranslateError>): Result<Doc, TranslateError> {
    match anns
    case Failure(e) => Failure(e)
    case Success(a) => Success(d.(body := d.body.(actionAnnotations := a)))
  }

  // ---------------------------------------------------------------------------
  // What a translator reads from `external_data`

  /** `external_data["id_remap"]`, or a fresh empty remap. */
  function SeedOf(ext: ExtData?): IdRemap
    reads ext
  {
    if ext != null && ext.idRemap.Some? then ext.idRemap.value else map[]
  }

  /** The group rule of the caller's translate dict (the default rules when
      there is no dict). */
  function GivenRule(ext: ExtData?): Rule
    reads ext, DictOf(ext)
  {
    if ext != null && ext.translateDict.Some? then RuleIn(ext.translateDict.value) else PlainRule
  }

  function GivenTables(ext: ExtData?): map<OldId, IdRemap>
    reads ext, DictOf(ext), HookTablesOf(ext)
  {
    if ext != null && ext.translateDict.Some? then TablesIn(ext.translateDict.value) else map[]
  }

  /** The rule once translateVistrail or translateWorkflow has installed its
      hook where the dict had no group entry. */
  function InstalledRule(ext: ExtData?): Rule
    reads ext, DictOf(ext)
  {
    if GivenRule(ext) == PlainRule then TableRule else GivenRule(ext)
  }

  /** The table that rule starts from: `external_data["group_remaps"]` (or a
      fresh one) when the hook is theirs. */
  function InstalledTables(ext: ExtData?): map<OldId, IdRemap>
    reads ext, DictOf(ext), HookTablesOf(ext), TableOf(ext)
  {
    if GivenRule(ext) != PlainRule then GivenTables(ext)
    else if ext != null && ext.groupRemaps.Some? then ext.groupRemaps.value.remaps
    else map[]
  }

  // ---------------------------------------------------------------------------
  // The translators

  /** `update_workflow`: translate the group's workflow under its own remap,
      then store the remap back under the group's old id. */
  method UpdateWorkflowHook(table: GroupRemapTable, g: Group, td: TranslateDict, dom: Domain) returns (w: Doc)
    requires GroupEntry in td.entries && td.entries[GroupEntry] == UpdateWorkflow(table)
    modifies table
    ensures (g.(workflow := w), table.remaps) == GroupSpec(dom, TableRule, g, old(table.remaps))
    decreases g, 0
  {
    var groupData := new ExtData(Some(LookupGroup(table.remaps, g.id)), None, Some(td));
    w := TranslateWorkflow(g.workflow, groupData, dom);
    table.remaps := table.remaps[g.id := groupData.idRemap.value];
  }

  /** The groups `update_version` meets, each through the dict's group rule. */
  method UpgradeGroups(gs: seq<Group>, td: TranslateDict, dom: Domain) returns (docs: seq<Group>)
    modifies HookTables(td)
    ensures (docs, TablesIn(td)) == GroupsSpec(dom, RuleIn(td), gs, old(TablesIn(td)))
    decreases gs, 1
  {
    docs := [];
    for i := 0 to |gs|
      invariant (docs, TablesIn(td)) == GroupsSpec(dom, RuleIn(td), gs[..i], old(TablesIn(td)))
    {
      GroupsSpecPrefix(dom, RuleIn(td), gs, i, old(TablesIn(td)));
      var w: Doc;
      if GroupEntry !in td.entries {
        w := dom.plain(gs[i]);
      } else {
        match td.entries[GroupEntry]
        case UpdateWorkflow(table) =>
          w := UpdateWorkflowHook(table, gs[i], td, dom);
        case Supplied(tag) =>
          w := dom.supplied(tag, gs[i]);
      }
      docs := docs + [gs[i].(workflow := w)];
    }
    assert gs[..|gs|] == gs;
  }

  /** `update_version` then `do_copy`, with the version stamped. */
  method UpgradeDoc(kind: Kind, d: Doc, seed: IdRemap, td: TranslateDict, dom: Domain)
    returns (r: Doc, remap: IdRemap)
    modifies HookTables(td)
    ensures (r, remap, TablesIn(td)) == DocSpec(dom, RuleIn(td), kind, d, seed, old(TablesIn(td)))
    decreases d, 2
  {
    var groups := UpgradeGroups(d.groups, td, dom);
    var upgraded := dom.upgrade(kind, d.body);
    var copied := dom.copy(ScopeOf(kind), upgraded, seed);
    r := Doc(TargetVersion, copied.0, groups);
    remap := copied.1 + seed;
  }

  /** `update_version` then `do_copy` into the caller's remap: the remap
      `do_copy` leaves replaces `external_data["id_remap"]` when there is one
      (the source mutates that dict in place) and is dropped otherwise. */
  method UpgradeInto(kind: Kind, d: Doc, seed: IdRemap, ext: ExtData?, td: TranslateDict, dom: Domain)
    returns (r: Doc, remap: IdRemap)
    modifies HookTables(td), if ext == null then {} else {ext}
    ensures (r, remap, TablesIn(td)) == DocSpec(dom, old(RuleIn(td)), kind, d, seed, old(TablesIn(td)))
    ensures td.entries == old(td.entries)
    ensures ext != null ==>
      && ext.groupRemaps == old(ext.groupRemaps) && ext.translateDict == old(ext.translateDict)
      && ext.idRemap == if old(ext.idRemap).Some? then Some(remap) else None
    decreases d, 3
  {
    r, remap := UpgradeDoc(kind, d, seed, td, dom);
    if ext != null && ext.idRemap.Some? {
      ext.idRemap := Some(remap);
    }
  }

  /** translateWorkflow's translate dict: the caller's (or a fresh one),
      given the hook over `external_data["group_remaps"]` (or a fresh table)
      when it has no group entry. */
  method DictWithHook(ext: ExtData?) returns (td: TranslateDict)
    modifies if GivenRule(ext) == PlainRule then DictOf(ext) else {}
    ensures RuleIn(td) == old(InstalledRule(ext)) && TablesIn(td) == old(InstalledTables(ext))
    ensures ext != null && ext.translateDict.Some? ==> td == ext.translateDict.value
    ensures ext == null || ext.translateDict.None? ==> fresh(td)
    ensures forall o :: o in HookTables(td) ==> o in old(TableOf(ext) + HookTablesOf(ext)) || fresh(o)
    ensures GroupEntry in td.entries
    ensures old(GivenRule(ext)) == PlainRule && ext != null && ext.groupRemaps.Some? ==>
      td.entries[GroupEntry] == UpdateWorkflow(ext.groupRemaps.value)
    ensures ext != null && ext.translateDict.Some? ==>
      && (GroupEntry in old(td.entries) ==> td.entries == old(td.entries))
      && (GroupEntry !in old(td.entries) ==>
            && GroupEntry in td.entries && td.entries[GroupEntry].UpdateWorkflow?
            && td.entries == old(td.entries)[GroupEntry := td.entries[GroupEntry]]
            && (ext.groupRemaps.Some? ==> td.entries[GroupEntry].table == ext.groupRemaps.value)
            && (ext.groupRemaps.None? ==> fresh(td.entries[GroupEntry].table)))
  {
    var table: GroupRemapTable;
    if ext != null && ext.groupRemaps.Some? {
      table := ext.groupRemaps.value;
    } else {
      table := new GroupRemapTable(map[]);
    }
    if ext != null && ext.translateDict.Some? {
      td := ext.translateDict.value;
    } else {
      td := new TranslateDict(map[]);
    }
    if GroupEntry !in td.entries {
      td.entries := td.entries[GroupEntry := UpdateWorkflow(table)];
    }
  }

  /** translateWorkflow. The caller's translate dict is used as is, and gets
      the hook when it has no group entry. */
  method TranslateWorkflow(w: Doc, ext: ExtData?, dom: Domain) returns (r: Doc)
    modifies ExtObjects(ext) - (if GivenRule(ext) == PlainRule then {} else DictOf(ext))
    ensures r.version == TargetVersion
    ensures r == DocSpec(dom, old(InstalledRule(ext)), WorkflowKind, w, old(SeedOf(ext)), old(InstalledTables(ext))).0
    ensures ext != null ==>
      && ext.groupRemaps == old(ext.groupRemaps) && ext.translateDict == old(ext.translateDict)
      && ext.idRemap == if old(ext.idRemap).Some?
                        then Some(DocSpec(dom, old(InstalledRule(ext)), WorkflowKind, w, old(SeedOf(ext)), old(InstalledTables(ext))).1)
                        else None
    ensures ext != null && ext.translateDict.Some? ==>
      var e := ext.translateDict.value;
      && (GroupEntry in old(e.entries) ==> e.entries == old(e.entries))
      && (GroupEntry !in old(e.entries) ==>
            && GroupEntry in e.entries && e.entries[GroupEntry].UpdateWorkflow?
            && e.entries == old(e.entries)[GroupEntry := e.entries[GroupEntry]]
            && (ext.groupRemaps.Some? ==> e.entries[GroupEntry].table == ext.groupRemaps.value)
            && (ext.groupRemaps.None? ==> fresh(e.entries[GroupEntry].table)))
    ensures ext != null && ext.translateDict.Some? ==>
      TablesIn(ext.translateDict.value) ==
      DocSpec(dom, old(InstalledRule(ext)), WorkflowKind, w, old(SeedOf(ext)), old(InstalledTables(ext))).2
    ensures ext != null && ext.groupRemaps.Some? && old(GivenRule(ext)) == PlainRule ==>
      ext.groupRemaps.value.remaps ==
      DocSpec(dom, old(InstalledRule(ext)), WorkflowKind, w, old(SeedOf(ext)), old(InstalledTables(ext))).2
    ensures ext != null && ext.groupRemaps.Some? && old(GivenRule(ext)) != PlainRule &&
            ext.groupRemaps.value !in old(HookTablesOf(ext)) ==>
      ext.groupRemaps.value.remaps == old(ext.groupRemaps.value.remaps)
    decreases w, 4
  {
    var seed := SeedOf(ext);
    var td := DictWithHook(ext);
    var remap;
    r, remap := UpgradeInto(WorkflowKind, w, seed, ext, td, dom);
  }

  lemma SameEntriesSameTables(a: TranslateDict, b: TranslateDict)
    requires a.entries == b.entries
    ensures TablesIn(a) == TablesIn(b)
  {
  }

  /** translateVistrail's own translate dict: a copy of the caller's, with
      the hook over `external_data["group_remaps"]` (or a fresh table)
      installed when it has no group entry. */
  method CopyDictWithHook(ext: ExtData?) returns (td: TranslateDict)
    ensures fresh(td)
    ensures RuleIn(td) == old(InstalledRule(ext)) && TablesIn(td) == old(InstalledTables(ext))
    ensures forall o :: o in HookTables(td) ==> o in old(TableOf(ext) + HookTablesOf(ext)) || fresh(o)
    ensures old(GivenRule(ext)) != PlainRule ==> td.entries == old(ext.translateDict.value.entries)
    ensures old(GivenRule(ext)) == PlainRule && ext != null && ext.groupRemaps.Some? ==>
      td.entries[GroupEntry] == UpdateWorkflow(ext.groupRemaps.value)
  {
    var table: GroupRemapTable;
    if ext != null && ext.groupRemaps.Some? {
      table := ext.groupRemaps.value;
    } else {
      table := new GroupRemapTable(map[]);
    }
    if ext != null && ext.translateDict.Some? {
      td := new TranslateDict(ext.translateDict.value.entries);
    } else {
      td := new TranslateDict(map[]);
    }
    if GroupEntry !in td.entries {
      td.entries := td.entries[GroupEntry := UpdateWorkflow(table)];
    }
  }

  /** translateVistrail up to the annotation fix-up: the hook installed in
      a copy of the caller's dict, the root sentinel seeded in the caller's
      remap, the document upgraded and copied, and the remap written back. */
  method UpgradeVistrail(v: Doc, ext: ExtData?, dom: Domain) returns (d: Doc, remap: IdRemap)
    modifies ExtObjects(ext) - DictOf(ext)
    ensures ext != null ==>
      && ext.groupRemaps == old(ext.groupRemaps) && ext.translateDict == old(ext.translateDict)
      && ext.idRemap == if old(ext.idRemap).Some? then Some(remap) else None
    ensures ext != null && ext.translateDict.Some? ==>
      ext.translateDict.value.entries == old(ext.translateDict.value.entries)
    ensures var spec := VistrailDoc(dom, old(InstalledRule(ext)), v, old(SeedOf(ext)), old(InstalledTables(ext)));
      && d == spec.0 && remap == spec.1
      && (old(GivenRule(ext)) == TableRule ==> TablesIn(ext.translateDict.value) == spec.2)
      && (ext != null && ext.groupRemaps.Some? && old(GivenRule(ext)) == PlainRule ==>
            ext.groupRemaps.value.remaps == spec.2)
    ensures ext != null && ext.groupRemaps.Some? && old(GivenRule(ext)) != PlainRule &&
            ext.groupRemaps.value !in old(HookTablesOf(ext)) ==>
      ext.groupRemaps.value.remaps == old(ext.groupRemaps.value.remaps)
  {
    ghost var rule0 := GivenRule(ext);
    var td := CopyDictWithHook(ext);
    var seed := SeedRoot(SeedOf(ext));
    ghost var touched: set<object> := HookTables(td);
    assert ext !in touched && (ext != null && ext.translateDict.Some? ==> ext.translateDict.value !in touched);
    d, remap := UpgradeInto(VistrailKind, v, seed, ext, td, dom);
    assert ext != null && ext.translateDict.Some? ==>
      ext.translateDict.value.entries == old(ext.translateDict.value.entries);
    if ext != null && ext.translateDict.Some? && rule0 != PlainRule {
      SameEntriesSameTables(ext.translateDict.value, td);
    } else if ext != null && ext.groupRemaps.Some? {
      assert TablesIn(td) == ext.groupRemaps.value.remaps;
    }
  }

  /** translateVistrail. It works on a copy of the caller's translate dict,
      seeds the root sentinel in the caller's remap, and fails when an
      upgrade annotation names an action the remap does not know. */
  method TranslateVistrail(v: Doc, ext: ExtData?, dom: Domain) returns (r: Result<Doc, TranslateError>)
    modifies ExtObjects(ext) - DictOf(ext)
    ensures r.Success? ==> r.value.version == TargetVersion
    ensures r.Failure? ==> r.error.MissingRemap?
    ensures r == VistrailSpec(dom, old(InstalledRule(ext)), v, old(SeedOf(ext)), old(InstalledTables(ext))).0
    ensures ext != null ==>
      && ext.groupRemaps == old(ext.groupRemaps) && ext.translateDict == old(ext.translateDict)
      && ext.idRemap == if old(ext.idRemap).Some?
                        then Some(VistrailSpec(dom, old(InstalledRule(ext)), v, old(SeedOf(ext)), old(InstalledTables(ext))).1)
                        else None
    ensures ext != null && ext.translateDict.Some? ==>
      ext.translateDict.value.entries == old(ext.translateDict.value.entries)
    ensures old(GivenRule(ext)) == TableRule ==>
      TablesIn(ext.translateDict.value) ==
      VistrailSpec(dom, old(InstalledRule(ext)), v, old(SeedOf(ext)), old(InstalledTables(ext))).2
    ensures ext != null && ext.groupRemaps.Some? && old(GivenRule(ext)) == PlainRule ==>
      ext.groupRemaps.value.remaps ==
      VistrailSpec(dom, old(InstalledRule(ext)), v, old(SeedOf(ext)), old(InstalledTables(ext))).2
    ensures ext != null && ext.groupRemaps.Some? && old(GivenRule(ext)) != PlainRule &&
            ext.groupRemaps.value !in old(HookTablesOf(ext)) ==>
      ext.groupRemaps.value.remaps == old(ext.groupRemaps.value.remaps)
  {
    var d, remap := UpgradeVistrail(v, ext, dom);
    var fixed := RemapUpgradeAnnotations(d.body.actionAnnotations, remap);
    FixupFailsIffUnknownAction(d.body.actionAnnotations, remap);
    r := WithAnnotations(d, fixed);
  }

  /** translateLog: the caller's remap and dict, no hook of its own. */
  method TranslateLog(l: Doc, ext: ExtData?, dom: Domain) returns (r: Doc)
    modifies (if ext == null then {} else {ext}), HookTablesOf(ext)
    ensures r.version == TargetVersion
    ensures r == DocSpec(dom, old(GivenRule(ext)), LogKind, l, old(SeedOf(ext)), old(GivenTables(ext))).0
    ensures ext != null ==>
      && ext.groupRemaps == old(ext.groupRemaps) && ext.translateDict == old(ext.translateDict)
      && ext.idRemap == if old(ext.idRemap).Some?
                        then Some(DocSpec(dom, old(GivenRule(ext)), LogKind, l, old(SeedOf(ext)), old(GivenTables(ext))).1)
                        else None
    ensures GivenTables(ext) == DocSpec(dom, old(GivenRule(ext)), LogKind, l, old(SeedOf(ext)), old(GivenTables(ext))).2
  {
    var td: TranslateDict;
    if ext != null && ext.translateDict.Some? {
      td := ext.translateDict.value;
    } else {
      td := new TranslateDict(map[]);
    }
    var remap;
    r, remap := UpgradeInto(LogKind, l, SeedOf(ext), ext, td, dom);
  }

  /** translateRegistry: as translateLog, under the registry's rules. */
  method TranslateRegistry(g: Doc, ext: ExtData?, dom: Domain) returns (r: Doc)
    modifies (if ext == null then {} else {ext}), HookTablesOf(ext)
    ensures r.version == TargetVersion
    ensures r == DocSpec(dom, old(GivenRule(ext)), RegistryKind, g, old(SeedOf(ext)), old(GivenTables(ext))).0
    ensures ext != null ==>
      && ext.groupRemaps == old(ext.groupRemaps) && ext.translateDict == old(ext.translateDict)
      && ext.idRemap == if old(ext.idRemap).Some?
                        then Some(DocSpec(dom, old(GivenRule(ext)), RegistryKind, g, old(SeedOf(ext)), old(GivenTables(ext))).1)
                        else None
    ensures GivenTables(ext) == DocSpec(dom, old(GivenRule(ext)), RegistryKind, g, old(SeedOf(ext)), old(GivenTables(ext))).2
  {
    var td: TranslateDict;
    if ext != null && ext.translateDict.Some? {
      td := ext.translateDict.value;
    } else {
      td := new TranslateDict(map[]);
    }
    var remap;
    r, remap := UpgradeInto(RegistryKind, g, SeedOf(ext), ext, td, dom);
  }

  // ---------------------------------------------------------------------------
  // Properties of the group translation

  lemma GroupsSpecPrefix(dom: Domain, rule: Rule, gs: seq<Group>, i: nat, tables: map<OldId, IdRemap>)
    requires i < |gs|
    ensures GroupsSpec(dom, rule, gs[..i + 1], tables) ==
            (GroupsSpec(dom, rule, gs[..i], tables).0 + [GroupSpec(dom, rule, gs[i], GroupsSpec(dom, rule, gs[..i], tables).1).0],
             GroupSpec(dom, rule, gs[i], GroupsSpec(dom, rule, gs[..i], tables).1).1)
  {
    assert gs[..i + 1][..i] == gs[..i];
  }

  lemma PreservesTrans(a: map<OldId, IdRemap>, b: map<OldId, IdRemap>, c: map<OldId, IdRemap>,
                       s1: set<OldId>, s2: set<OldId>)
    requires Preserves(a, b, s1) && Preserves(b, c, s2)
    ensures Preserves(a, c, s1 + s2)
  {
  }

  /** Translating a document's groups touches only the table entries of
      those groups and of the groups nested in them. */
  lemma {:induction false} DocKeepsOtherGroups(dom: Domain, rule: Rule, kind: Kind, d: Doc, seed: IdRemap,
                                               tables: map<OldId, IdRemap>)
    ensures Preserves(tables, DocSpec(dom, rule, kind, d, seed, tables).2, GroupIds(d.groups))
    decreases d, 2
  {
    GroupsKeepOtherGroups(dom, rule, d.groups, tables);
  }

  lemma {:induction false} GroupsKeepOtherGroups(dom: Domain, rule: Rule, gs: seq<Group>, tables: map<OldId, IdRemap>)
    ensures Preserves(tables, GroupsSpec(dom, rule, gs, tables).1, GroupIds(gs))
    decreases gs, 1
  {
    if gs != [] {
      var n := |gs| - 1;
      var mid := GroupsSpec(dom, rule, gs[..n], tables).1;
      GroupsKeepOtherGroups(dom, rule, gs[..n], tables);
      GroupKeepsOtherGroups(dom, rule, gs[n], mid);
      PreservesTrans(tables, mid, GroupsSpec(dom, rule, gs, tables).1, GroupIds(gs[..n]), AllIds(gs[n]));
    }
  }

  lemma {:induction false} GroupKeepsOtherGroups(dom: Domain, rule: Rule, g: Group, tables: map<OldId, IdRemap>)
    ensures Preserves(tables, GroupSpec(dom, rule, g, tables).1, AllIds(g))
    decreases g, 0
  {
    if rule == TableRule {
      DocKeepsOtherGroups(dom, rule, WorkflowKind, g.workflow, LookupGroup(tables, g.id), tables);
    }
  }

  /** The group hook: it stores under the group's old id the remap the
      group's workflow was translated under (the stored one, or an empty one),
      extended by that translation's `do_copy`; every entry other than the
      group's and its nested groups' is left as it was. */
  lemma HookStoresRemap(dom: Domain, g: Group, tables: map<OldId, IdRemap>)
    ensures g.id in GroupSpec(dom, TableRule, g, tables).1
    ensures GroupSpec(dom, TableRule, g, tables).1[g.id] ==
            CopyRemap(dom, WorkflowKind, g.workflow.body, LookupGroup(tables, g.id))
    ensures Preserves(tables, GroupSpec(dom, TableRule, g, tables).1, {g.id} + GroupIds(g.workflow.groups))
  {
    GroupKeepsOtherGroups(dom, TableRule, g, tables);
  }

  /** Under any rule but the hook, the table is not touched. */
  lemma {:induction false} OtherRulesKeepTables(dom: Domain, rule: Rule, gs: seq<Group>, tables: map<OldId, IdRemap>)
    requires rule != TableRule
    ensures GroupsSpec(dom, rule, gs, tables).1 == tables
  {
    if gs != [] {
      OtherRulesKeepTables(dom, rule, gs[..|gs| - 1], tables);
    }
  }

  lemma GroupIdsSplit(gs: seq<Group>, i: nat)
    requires i < |gs|
    ensures GroupIds(gs[i..]) == GroupIds(gs[i..|gs| - 1]) + AllIds(gs[|gs| - 1])
  {
    assert gs[i..][..|gs[i..]| - 1] == gs[i..|gs| - 1];
  }

  /** A group whose old id no other group of the document (nor any group
      nested in another) carries ends up with the remap its own translation
      produced, seeded by the entry the caller had stored for it. */
  lemma {:induction false} GroupRemapRecorded(dom: Domain, gs: seq<Group>, tables: map<OldId, IdRemap>, i: nat)
    requires i < |gs|
    requires gs[i].id !in GroupIds(gs[..i]) && gs[i].id !in GroupIds(gs[i + 1..])
    ensures gs[i].id in GroupsSpec(dom, TableRule, gs, tables).1
    ensures GroupsSpec(dom, TableRule, gs, tables).1[gs[i].id] ==
            CopyRemap(dom, WorkflowKind, gs[i].workflow.body, LookupGroup(tables, gs[i].id))
  {
    var n := |gs| - 1;
    var mid := GroupsSpec(dom, TableRule, gs[..n], tables).1;
    var g := gs[i];
    if i == n {
      GroupsKeepOtherGroups(dom, TableRule, gs[..n], tables);
      assert LookupGroup(mid, g.id) == LookupGroup(tables, g.id);
      HookStoresRemap(dom, g, mid);
    } else {
      assert gs[..n][..i] == gs[..i];
      GroupIdsSplit(gs, i + 1);
      assert gs[..n][i + 1..] == gs[i + 1..n];
      GroupRemapRecorded(dom, gs[..n], tables, i);
      GroupKeepsOtherGroups(dom, TableRule, gs[n], mid);
    }
  }

  /** After translateVistrail the root sentinel maps to 0, or to what the
      caller had mapped it to, and every mapping of the caller survives. */
  lemma RootSentinelAfterVistrail(dom: Domain, rule: Rule, v: Doc, seed: IdRemap, tables: map<OldId, IdRemap>)
    ensures RootActionKey in VistrailSpec(dom, rule, v, seed, tables).1
    ensures VistrailSpec(dom, rule, v, seed, tables).1[RootActionKey] ==
            if RootActionKey in seed then seed[RootActionKey] else 0
    ensures forall k :: k in seed ==> k in VistrailSpec(dom, rule, v, seed, tables).1 &&
                                      VistrailSpec(dom, rule, v, seed, tables).1[k] == seed[k]
  {
  }

  // ---------------------------------------------------------------------------
  // The bundle helpers

  /** The entries of `remap` whose entity type is not among `types`. */
  function Unique(remap: IdRemap, types: set<string>): (r: IdRemap)
    ensures forall k :: k in r <==> k in remap && k.0 !in types
    ensures forall k :: k in r ==> r[k] == remap[k]
  {
    map k | k in remap && k.0 !in types :: remap[k]
  }

  /** The loop of `remove_non_unique` that builds the new remap. */
  method FilterRemap(remap: IdRemap, types: set<string>) returns (kept: IdRemap)
    ensures kept == Unique(remap, types)
  {
    kept := map[];
    var todo := remap.Keys;
    while todo != {}
      invariant todo <= remap.Keys
      invariant forall k :: k in kept <==> k in remap && k !in todo && k.0 !in types
      invariant forall k :: k in kept ==> kept[k] == remap[k]
      decreases todo
    {
      var k :| k in todo;
      if k.0 !in types {
        kept := kept[k := remap[k]];
      }
      todo := todo - {k};
    }
    assert kept.Keys == Unique(remap, types).Keys;
  }

  /** `remove_non_unique`: replaces the extdata's remap by its unique part;
      fails (a KeyError) when the extdata has no remap. */
  method RemoveNonUnique(ext: ExtData, types: set<string>) returns (ok: bool)
    modifies ext
    ensures ok == old(ext.idRemap).Some?
    ensures ext.idRemap == if ok then Some(Unique(old(ext.idRemap).value, types)) else old(ext.idRemap)
    ensures ext.groupRemaps == old(ext.groupRemaps) && ext.translateDict == old(ext.translateDict)
  {
    if ext.idRemap.None? {
      return false;
    }
    var kept := FilterRemap(ext.idRemap.value, types);
    ext.idRemap := Some(kept);
    ok := true;
  }

  /** `copy_extdata`: a new extdata whose dictionaries are copies of the
      given one's (the remaps inside a group-remap table are shared). */
  method CopyExtData(ext: ExtData) returns (c: ExtData)
    ensures fresh(c)
    ensures c.idRemap == ext.idRemap
    ensures c.groupRemaps.Some? <==> ext.groupRemaps.Some?
    ensures c.groupRemaps.Some? ==> fresh(c.groupRemaps.value) && c.groupRemaps.value.remaps == ext.groupRemaps.value.remaps
    ensures c.translateDict.Some? <==> ext.translateDict.Some?
    ensures c.translateDict.Some? ==> fresh(c.translateDict.value) && c.translateDict.value.entries == ext.translateDict.value.entries
  {
    var g: Option<GroupRemapTable> := None;
    if ext.groupRemaps.Some? {
      var t := new GroupRemapTable(ext.groupRemaps.value.remaps);
      g := Some(t);
    }
    var d: Option<TranslateDict> := None;
    if ext.translateDict.Some? {
      var t := new TranslateDict(ext.translateDict.value.entries);
      d := Some(t);
    }
    c := new ExtData(ext.idRemap, g, d);
  }

  /** Python's `dict.update` on an optional dictionary: absent takes the
      incoming one; present keeps its entries except those the incoming one
      overwrites. */
  function Merge<K(!new), V>(a: Option<map<K, V>>, b: Option<map<K, V>>): (r: Option<map<K, V>>)
    ensures b.None? ==> r == a
    ensures b.Some? ==> r.Some? && forall k :: k in r.value <==> k in b.value || (a.Some? && k in a.value)
    ensures b.Some? ==> forall k :: k in b.value ==> r.value[k] == b.value[k]
    ensures b.Some? && a.Some? ==> forall k :: k in a.value && k !in b.value ==> r.value[k] == a.value[k]
  {
    match b
    case None => a
    case Some(y) => if a.Some? then Some(a.value + y) else b
  }

  /** `update_extdata`: each key of `updates` is merged into the dictionary
      `ext` already holds under it, in place, or stored as is. */
  method UpdateExtData(ext: ExtData, updates: ExtData)
    modifies ext, TableOf(ext), DictOf(ext)
    ensures ext.idRemap == Merge(old(ext.idRemap), old(updates.idRemap))
    ensures old(updates.groupRemaps).None? ==> ext.groupRemaps == old(ext.groupRemaps) && unchanged(TableOf(ext))
    ensures old(updates.groupRemaps).Some? && old(ext.groupRemaps).None? ==> ext.groupRemaps == old(updates.groupRemaps)
    ensures old(updates.groupRemaps).Some? && old(ext.groupRemaps).Some? ==>
      && ext.groupRemaps == old(ext.groupRemaps)
      && ext.groupRemaps.value.remaps == old(ext.groupRemaps.value.remaps) + old(updates.groupRemaps.value.remaps)
    ensures old(updates.translateDict).None? ==> ext.translateDict == old(ext.translateDict) && unchanged(DictOf(ext))
    ensures old(updates.translateDict).Some? && old(ext.translateDict).None? ==> ext.translateDict == old(updates.translateDict)
    ensures old(updates.translateDict).Some? && old(ext.translateDict).Some? ==>
      && ext.translateDict == old(ext.translateDict)
      && ext.translateDict.value.entries == old(ext.translateDict.value.entries) + old(updates.translateDict.value.entries)
  {
    var incomingTable := if updates.groupRemaps.Some? then Some(updates.groupRemaps.value.remaps) else None;
    var incomingDict := if updates.translateDict.Some? then Some(updates.translateDict.value.entries) else None;
    ext.idRemap := Merge(ext.idRemap, updates.idRemap);
    if incomingTable.Some? {
      if ext.groupRemaps.Some? {
        ext.groupRemaps.value.remaps := ext.groupRemaps.value.remaps + incomingTable.value;
      } else {
        ext.groupRemaps := updates.groupRemaps;
      }
    }
    if incomingDict.Some? {
      if ext.translateDict.Some? {
        ext.translateDict.value.entries := ext.translateDict.value.entries + incomingDict.value;
      } else {
        ext.translateDict := updates.translateDict;
      }
    }
  }

  // ---------------------------------------------------------------------------
  // The bundle

  /** A bundle of documents; each kind may be absent. */
  datatype Bundle = Bundle(
    bundleType: string,
    vistrail: Option<Doc>,
    workflow: Option<Doc>,
    log: Option<Doc>,
    registry: Option<Doc>,
    abstractions: seq<Doc>,
    mashups: seq<Doc>)

  /** The bundle's `external_data`: the extdata of each document kind, any of
      which may be absent. translateBundle only reads it. */
  class BundleExtData {
    const vistrail: Option<ExtData>
    const workflow: Option<ExtData>
    const log: Option<ExtData>
    const registry: Option<ExtData>
    constructor (v: Option<ExtData>, w: Option<ExtData>, l: Option<ExtData>, r: Option<ExtData>)
      ensures vistrail == v && workflow == w && log == l && registry == r
    {
      vistrail, workflow, log, registry := v, w, l, r;
    }
  }

  /** The caller's extdata for one document kind, or null. */
  function GivenExt(ext: BundleExtData?, kind: Kind): ExtData? {
    if ext == null then null
    else
      var e := match kind
        case VistrailKind => ext.vistrail
        case WorkflowKind => ext.workflow
        case LogKind => ext.log
        case RegistryKind => ext.registry;
      if e.Some? then e.value else null
  }

  // ---------------------------------------------------------------------------
  // translateBundle as a function of the remaps

  /** One extdata of a bundle as far as seeding goes: absent, or present
      with or without an `id_remap`. */
  datatype Slot = NoExt | Ext(remap: Option<IdRemap>)

  function SlotOf(ext: ExtData?): Slot
    reads ext
  {
    if ext == null then NoExt else Ext(ext.idRemap)
  }

  /** An absent extdata replaced by translateBundle's default, whose
      `id_remap` is empty. */
  function Defaulted(s: Slot): Slot {
    if s.NoExt? then Ext(Some(map[])) else s
  }

  /** The remap a translator starts from (SeedOf, on a slot). */
  function SlotSeed(s: Slot): IdRemap {
    if s.Ext? && s.remap.Some? then s.remap.value else map[]
  }

  /** Seeding `target` from `source`: no source leaves the target as it is;
      a source without a remap is a KeyError; otherwise the source's remap
      without the entries of `types` is merged into the target's, its
      entries winning. */
  function Seeded(target: Slot, source: Slot, types: set<string>): Result<Slot, TranslateError> {
    match source
    case NoExt => Success(target)
    case Ext(None) => Failure(MissingIdRemap)
    case Ext(Some(m)) => Success(Ext(Merge(if target.Ext? then target.remap else None, Some(Unique(m, types)))))
  }

  /** A translator writes its remap back only into an extdata that has one. */
  function WrittenBack(s: Slot, remap: IdRemap): Slot {
    if s.Ext? && s.remap.Some? then Ext(Some(remap)) else s
  }

  function SomeDoc(r: Result<Doc, TranslateError>): Result<Option<Doc>, TranslateError> {
    match r
    case Failure(e) => Failure(e)
    case Success(d) => Success(Some(d))
  }

  function BodyOf(d: Option<Doc>): Option<Body> {
    if d.Some? then Some(d.value.body) else None
  }

  function BodyResult(r: Result<Option<Doc>, TranslateError>): Result<Option<Body>, TranslateError> {
    match r
    case Failure(e) => Failure(e)
    case Success(d) => Success(BodyOf(d))
  }

  /** The vistrail step: the vistrail translated under its extdata (the
      default one when absent), and that extdata's slot afterwards. */
  function VistrailOutcome(dom: Domain, v: Option<Doc>, rule: Rule, tables: map<OldId, IdRemap>, vs: Slot)
    : (r: (Result<Option<Doc>, TranslateError>, Slot))
    ensures r.0.Success? ==> Stamped(r.0.value, v)
    ensures r.0.Failure? ==> v.Some? && r.0.error.MissingRemap?
  {
    if v.None? then (Success(None), vs)
    else
      var (d, remap, _) := VistrailSpec(dom, rule, v.value, SlotSeed(vs), tables);
      (SomeDoc(d), WrittenBack(Defaulted(vs), remap))
  }

  /** A workflow or log step: the document's contents translated under the
      `target` extdata (the default one when absent) seeded from `source`
      without the entries of `types`, and the target's slot afterwards. */
  function SeededBody(dom: Domain, kind: Kind, doc: Option<Doc>, target: Slot, source: Slot, types: set<string>)
    : (Result<Option<Body>, TranslateError>, Slot)
  {
    if doc.None? then (Success(None), target)
    else
      match Seeded(Defaulted(target), source, types)
      case Failure(e) => (Failure(e), Defaulted(target))
      case Success(s) =>
        (Success(Some(CopiedBody(dom, kind, doc.value.body, SlotSeed(s)))),
         WrittenBack(s, CopyRemap(dom, kind, doc.value.body, SlotSeed(s))))
  }

  /** The workflow step: seeded from the vistrail's extdata with nothing
      stripped. */
  function WorkflowOutcome(dom: Domain, w: Option<Doc>, vs: Slot, ws: Slot)
    : (Result<Option<Body>, TranslateError>, Slot)
  {
    SeededBody(dom, WorkflowKind, w, ws, vs, {})
  }

  /** The log step: seeded from the vistrail's extdata without its
      annotation entries when there is one, else from the workflow's. */
  function LogOutcome(dom: Domain, l: Option<Doc>, vs: Slot, ws: Slot, ls: Slot)
    : Result<Option<Body>, TranslateError>
  {
    if vs.Ext? then SeededBody(dom, LogKind, l, ls, vs, {AnnotationType}).0
    else SeededBody(dom, LogKind, l, ls, ws, {}).0
  }

  /** The registry step: the registry's contents translated under its own
      extdata's remap only. */
  function RegistryOutcome(dom: Domain, g: Option<Doc>, gs: Slot): Option<Body> {
    if g.None? then None else Some(CopiedBody(dom, RegistryKind, g.value.body, SlotSeed(gs)))
  }

  /** What translateBundle returns: the vistrail, and the workflow, log and
      registry by their contents. */
  datatype Outline = Outline(vistrail: Option<Doc>, workflow: Option<Body>, log: Option<Body>, registry: Option<Body>)

  function LogStageOutcome(dom: Domain, b: Bundle, vs: Slot, ws: Slot, ls: Slot, gs: Slot)
    : Result<Outline, TranslateError>
  {
    match LogOutcome(dom, b.log, vs, ws, ls)
    case Failure(e) => Failure(e)
    case Success(l) => Success(Outline(None, None, l, RegistryOutcome(dom, b.registry, gs)))
  }

  function WorkflowStageOutcome(dom: Domain, b: Bundle, vs: Slot, ws: Slot, ls: Slot, gs: Slot)
    : Result<Outline, TranslateError>
  {
    var (w, after) := WorkflowOutcome(dom, b.workflow, vs, ws);
    match w
    case Failure(e) => Failure(e)
    case Success(wb) =>
      match LogStageOutcome(dom, b, vs, after, ls, gs)
      case Failure(e) => Failure(e)
      case Success(o) => Success(o.(workflow := wb))
  }

  /** translateBundle as a function of the four extdata slots and of the
      vistrail extdata's group rule and tables: the documents in a fixed
      order, each later one seeded from what an earlier step left. */
  function BundleOutcome(dom: Domain, b: Bundle, rule: Rule, tables: map<OldId, IdRemap>,
                         vs: Slot, ws: Slot, ls: Slot, gs: Slot)
    : Result<Outline, TranslateError>
  {
    var (v, after) := VistrailOutcome(dom, b.vistrail, rule, tables, vs);
    match v
    case Failure(e) => Failure(e)
    case Success(vd) =>
      match WorkflowStageOutcome(dom, b, after, ws, ls, gs)
      case Failure(e) => Failure(e)
      case Success(o) => Success(o.(vistrail := vd))
  }

  /** The remap the vistrail extdata holds after the vistrail step. */
  function VistrailRemapAfter(dom: Domain, b: Bundle, rule: Rule, tables: map<OldId, IdRemap>, vs: Slot): IdRemap {
    if b.vistrail.Some? then VistrailSpec(dom, rule, b.vistrail.value, SlotSeed(vs), tables).1 else SlotSeed(vs)
  }

  /** The vistrail extdata after the vistrail step: as given when it has no
      `id_remap`, otherwise holding the vistrail's remap when the vistrail
      step ran or it was given. */
  lemma VistrailAfter(dom: Domain, b: Bundle, rule: Rule, tables: map<OldId, IdRemap>, vs: Slot)
    ensures VistrailOutcome(dom, b.vistrail, rule, tables, vs).1 ==
      if vs == Ext(None) then vs
      else if vs.Ext? || b.vistrail.Some? then Ext(Some(VistrailRemapAfter(dom, b, rule, tables, vs)))
      else NoExt
  {
  }

  /** What a source contributes to a seed: its remap without the entries
      of `types`, or nothing. */
  function Stripped(source: Slot, types: set<string>): IdRemap {
    if source.Ext? && source.remap.Some? then Unique(source.remap.value, types) else map[]
  }

  /** A workflow or log step fails exactly when it has a document and its
      source has no `id_remap`; otherwise the document is translated from
      the target's remap updated with the stripped source's. */
  lemma SeededBodyFacts(dom: Domain, kind: Kind, doc: Option<Doc>, target: Slot, source: Slot, types: set<string>)
    ensures var (o, after) := SeededBody(dom, kind, doc, target, source, types);
      && (o.Failure? <==> doc.Some? && source == Ext(None))
      && (o.Failure? ==> o.error == MissingIdRemap)
      && (doc.None? ==> after == target)
      && (o.Success? && doc.Some? ==>
            o.value == Some(CopiedBody(dom, kind, doc.value.body, SlotSeed(Defaulted(target)) + Stripped(source, types))))
      && (doc.Some? && source.NoExt? ==>
            after == if target == Ext(None) then target
                     else Ext(Some(CopyRemap(dom, kind, doc.value.body, SlotSeed(Defaulted(target))))))
  {
    if doc.Some? && source.Ext? && source.remap.Some? {
      var u := Unique(source.remap.value, types);
      var m := Merge(Defaulted(target).remap, Some(u));
      assert m.value == SlotSeed(Defaulted(target)) + u;
    } else {
      assert SlotSeed(Defaulted(target)) + map[] == SlotSeed(Defaulted(target));
    }
  }

  /** translateBundle fails exactly when the vistrail's annotation fix-up
      fails, or when a workflow or log is seeded from an extdata without an
      `id_remap`: the vistrail's when there is one (given, or defaulted for
      a vistrail), else the workflow's. Only the first is a MissingRemap. */
  lemma {:induction false} BundleOutcomeFails(dom: Domain, b: Bundle, rule: Rule, tables: map<OldId, IdRemap>,
                                              vs: Slot, ws: Slot, ls: Slot, gs: Slot)
    ensures var o := BundleOutcome(dom, b, rule, tables, vs, ws, ls, gs);
      var vistrailFails := b.vistrail.Some? && VistrailSpec(dom, rule, b.vistrail.value, SlotSeed(vs), tables).0.Failure?;
      var workflowMissing := b.workflow.Some? && vs == Ext(None);
      var logMissing := b.log.Some? && if vs.Ext? || b.vistrail.Some? then vs == Ext(None) else ws == Ext(None);
      && (o.Failure? <==> vistrailFails || workflowMissing || logMissing)
      && (o.Failure? ==> (o.error.MissingRemap? <==> vistrailFails))
      && (o.Failure? && !vistrailFails ==> o.error == MissingIdRemap)
  {
    var after := VistrailOutcome(dom, b.vistrail, rule, tables, vs).1;
    VistrailAfter(dom, b, rule, tables, vs);
    SeededBodyFacts(dom, WorkflowKind, b.workflow, ws, after, {});
    var wafter := WorkflowOutcome(dom, b.workflow, after, ws).1;
    if after.Ext? {
      SeededBodyFacts(dom, LogKind, b.log, ls, after, {AnnotationType});
    } else {
      SeededBodyFacts(dom, LogKind, b.log, ls, wafter, {});
    }
  }

  /** Whether a vistrail extdata exists once the vistrail step has run:
      given, or defaulted because the bundle has a vistrail. */
  predicate HasVistrailExt(b: Bundle, vs: Slot) {
    vs.Ext? || b.vistrail.Some?
  }

  /** The seed of the workflow: its own remap updated with the vistrail's. */
  function WorkflowSeed(dom: Domain, b: Bundle, rule: Rule, tables: map<OldId, IdRemap>, vs: Slot, ws: Slot): IdRemap {
    SlotSeed(Defaulted(ws)) + (if HasVistrailExt(b, vs) then VistrailRemapAfter(dom, b, rule, tables, vs) else map[])
  }

  /** The seed of the log: its own remap updated with the vistrail's minus
      the annotation ids, or, without a vistrail extdata, with the remap the
      workflow extdata holds after the workflow step. */
  function LogSeed(dom: Domain, b: Bundle, rule: Rule, tables: map<OldId, IdRemap>, vs: Slot, ws: Slot, ls: Slot)
    : IdRemap
  {
    SlotSeed(Defaulted(ls)) +
      if HasVistrailExt(b, vs) then Unique(VistrailRemapAfter(dom, b, rule, tables, vs), {AnnotationType})
      else if b.workflow.Some? then CopyRemap(dom, WorkflowKind, b.workflow.value.body, WorkflowSeed(dom, b, rule, tables, vs, ws))
      else SlotSeed(ws)
  }

  /** On success, the vistrail is the vistrail step's, the workflow is
      translated from WorkflowSeed, and the registry from its own remap
      alone. */
  lemma {:induction false} BundleWorkflowSeed(dom: Domain, b: Bundle, rule: Rule, tables: map<OldId, IdRemap>,
                                              vs: Slot, ws: Slot, ls: Slot, gs: Slot)
    requires BundleOutcome(dom, b, rule, tables, vs, ws, ls, gs).Success?
    ensures var o := BundleOutcome(dom, b, rule, tables, vs, ws, ls, gs).value;
      && o.vistrail == VistrailOutcome(dom, b.vistrail, rule, tables, vs).0.value
      && o.workflow == (if b.workflow.Some? then Some(CopiedBody(dom, WorkflowKind, b.workflow.value.body,
                                                                  WorkflowSeed(dom, b, rule, tables, vs, ws))) else None)
      && o.registry == (if b.registry.Some? then Some(CopiedBody(dom, RegistryKind, b.registry.value.body, SlotSeed(gs)))
                        else None)
  {
    BundleOutcomeFails(dom, b, rule, tables, vs, ws, ls, gs);
    var after := VistrailOutcome(dom, b.vistrail, rule, tables, vs).1;
    VistrailAfter(dom, b, rule, tables, vs);
    SeededBodyFacts(dom, WorkflowKind, b.workflow, ws, after, {});
    UniqueNone(VistrailRemapAfter(dom, b, rule, tables, vs));
  }

  /** On success, the log is translated from LogSeed. */
  lemma {:induction false} BundleLogSeed(dom: Domain, b: Bundle, rule: Rule, tables: map<OldId, IdRemap>,
                                         vs: Slot, ws: Slot, ls: Slot, gs: Slot)
    requires BundleOutcome(dom, b, rule, tables, vs, ws, ls, gs).Success?
    ensures BundleOutcome(dom, b, rule, tables, vs, ws, ls, gs).value.log ==
      if b.log.Some? then Some(CopiedBody(dom, LogKind, b.log.value.body, LogSeed(dom, b, rule, tables, vs, ws, ls)))
      else None
  {
    BundleOutcomeFails(dom, b, rule, tables, vs, ws, ls, gs);
    VistrailAfter(dom, b, rule, tables, vs);
    if HasVistrailExt(b, vs) {
      LogSeedFromVistrail(dom, b, rule, tables, vs, ws, ls, gs);
    } else {
      LogSeedFromWorkflow(dom, b, rule, tables, vs, ws, ls, gs);
    }
  }

  lemma LogSeedFromVistrail(dom: Domain, b: Bundle, rule: Rule, tables: map<OldId, IdRemap>,
                            vs: Slot, ws: Slot, ls: Slot, gs: Slot)
    requires HasVistrailExt(b, vs) && (b.log.Some? ==> vs != Ext(None))
    ensures var after := VistrailOutcome(dom, b.vistrail, rule, tables, vs).1;
      LogOutcome(dom, b.log, after, WorkflowOutcome(dom, b.workflow, after, ws).1, ls) ==
        if b.log.Some? then Success(Some(CopiedBody(dom, LogKind, b.log.value.body, LogSeed(dom, b, rule, tables, vs, ws, ls))))
        else Success(None)
  {
    var after := VistrailOutcome(dom, b.vistrail, rule, tables, vs).1;
    VistrailAfter(dom, b, rule, tables, vs);
    SeededBodyFacts(dom, LogKind, b.log, ls, after, {AnnotationType});
  }

  lemma LogSeedFromWorkflow(dom: Domain, b: Bundle, rule: Rule, tables: map<OldId, IdRemap>,
                            vs: Slot, ws: Slot, ls: Slot, gs: Slot)
    requires !HasVistrailExt(b, vs)
    requires b.log.Some? ==> ws != Ext(None)
    ensures var after := VistrailOutcome(dom, b.vistrail, rule, tables, vs).1;
      LogOutcome(dom, b.log, after, WorkflowOutcome(dom, b.workflow, after, ws).1, ls) ==
        if b.log.Some? then Success(Some(CopiedBody(dom, LogKind, b.log.value.body, LogSeed(dom, b, rule, tables, vs, ws, ls))))
        else Success(None)
  {
    var after := VistrailOutcome(dom, b.vistrail, rule, tables, vs).1;
    assert after == NoExt;
    SeededBodyFacts(dom, WorkflowKind, b.workflow, ws, after, {});
    var wafter := WorkflowOutcome(dom, b.workflow, after, ws).1;
    SeededBodyFacts(dom, LogKind, b.log, ls, wafter, {});
    assert SlotSeed(Defaulted(ws)) + map[] == SlotSeed(Defaulted(ws));
    if b.workflow.Some? {
      UniqueNone(CopyRemap(dom, WorkflowKind, b.workflow.value.body, SlotSeed(Defaulted(ws))));
    } else {
      UniqueNone(SlotSeed(ws));
    }
  }

  /** Stripping no types keeps a remap as it is. */
  lemma UniqueNone(m: IdRemap)
    ensures Unique(m, {}) == m
  {
    assert Unique(m, {}).Keys == m.Keys;
  }

  /** The four extdata of a bundle are different objects (when present). */
  predicate Apart(v: ExtData?, w: ExtData?, l: ExtData?, g: ExtData?) {
    && (v != null ==> v != w && v != l && v != g)
    && (w != null ==> w != l && w != g)
    && (l != null ==> l != g)
  }

  function Outlined(r: Result<Converted, TranslateError>): Result<Outline, TranslateError> {
    match r
    case Failure(e) => Failure(e)
    case Success(c) => Success(Outline(c.vistrail, BodyOf(c.workflow), BodyOf(c.log), BodyOf(c.registry)))
  }

  /** The default extdata `{"id_remap": {}, "group_remaps": {}}`. */
  method NewExtData() returns (e: ExtData)
    ensures fresh(e) && e.idRemap == Some(map[]) && e.translateDict.None?
    ensures e.groupRemaps.Some? && fresh(e.groupRemaps.value) && e.groupRemaps.value.remaps == map[]
  {
    var table := new GroupRemapTable(map[]);
    e := new ExtData(Some(map[]), Some(table), None);
  }

  /** How translateBundle seeds a later document's extdata from an earlier
      one: a copy of the earlier extdata, stripped of the remap entries of the
      entity types in `types`, merged into the later one with the copied
      entries winning. Fails (a KeyError) when the earlier extdata has no
      remap. */
  method SeedFrom(target: ExtData, source: ExtData, types: set<string>) returns (ok: bool)
    modifies target, TableOf(target), DictOf(target)
    ensures ok == old(source.idRemap).Some?
    ensures !ok ==> unchanged(target) && unchanged(TableOf(target)) && unchanged(DictOf(target))
    ensures ok ==> target.idRemap == Merge(old(target.idRemap), Some(Unique(old(source.idRemap).value, types)))
    ensures !ok || old(source.groupRemaps).None? ==> target.groupRemaps == old(target.groupRemaps) && unchanged(TableOf(target))
    ensures ok && old(source.groupRemaps).Some? ==>
      && target.groupRemaps.Some?
      && target.groupRemaps.value.remaps ==
         (if old(target.groupRemaps).Some? then old(target.groupRemaps.value.remaps) else map[]) +
         old(source.groupRemaps.value.remaps)
      && (old(target.groupRemaps).Some? ==> target.groupRemaps == old(target.groupRemaps))
      && (old(target.groupRemaps).None? ==> fresh(target.groupRemaps.value))
    ensures !ok || old(source.translateDict).None? ==> target.translateDict == old(target.translateDict) && unchanged(DictOf(target))
    ensures ok && old(source.translateDict).Some? ==>
      && target.translateDict.Some?
      && target.translateDict.value.entries ==
         (if old(target.translateDict).Some? then old(target.translateDict.value.entries) else map[]) +
         old(source.translateDict.value.entries)
      && (old(target.translateDict).Some? ==> target.translateDict == old(target.translateDict))
      && (old(target.translateDict).None? ==> fresh(target.translateDict.value))
  {
    var copy := CopyExtData(source);
    ok := RemoveNonUnique(copy, types);
    if ok {
      UpdateExtData(target, copy);
    }
  }

  /** Every object `x` reaches is in `frame` or was allocated since the
      start of the enclosing method. */
  twostate predicate Within(new x: ExtData?, new frame: set<object>)
    reads x, DictOf(x)
  {
    x != null ==>
      && Kept(x, frame)
      && (x.groupRemaps.Some? ==> Kept(x.groupRemaps.value, frame))
      && (x.translateDict.Some? ==>
            && Kept(x.translateDict.value, frame)
            && var e := x.translateDict.value.entries;
               GroupEntry in e && e[GroupEntry].UpdateWorkflow? ==> Kept(e[GroupEntry].table, frame))
  }

  /** Within is monotonic in the frame. */
  twostate lemma WithinGrow(new x: ExtData?, new small: set<object>, new big: set<object>)
    requires Within(x, small) && small <= big
    ensures Within(x, big)
  {
  }

  /** After a step that changed only the objects in `mods` (the extdata
      `given` it worked on, tables and `given`'s own dict) and left its
      result in `target`, an extdata `y` other than `target` still reaches
      only what it reached, or what `target` reaches through a shared dict. */
  twostate lemma OtherWithin(new y: ExtData?, given: ExtData?, new target: ExtData?, new mods: set<object>,
                             new frame: set<object>)
    requires Within(target, frame)
    requires forall o: object :: old(allocated(o)) && o !in mods ==> unchanged(o)
    requires forall e: ExtData :: e in mods ==> e == given
    requires forall d: TranslateDict :: d in mods ==> given != null && old(given.translateDict) == Some(d)
    requires given != null ==> target == given
    requires given != null && old(given.translateDict).Some? ==> given.translateDict == old(given.translateDict)
    requires y != null && y != target ==> old(allocated(y)) && old(ExtObjects(y)) <= frame
    ensures Within(y, frame)
    ensures y != target ==> SlotOf(y) == old(SlotOf(y))
  {
    if y != null && y != target {
      assert y !in mods;
      assert y.groupRemaps == old(y.groupRemaps) && y.translateDict == old(y.translateDict);
      if y.translateDict.Some? && (target == null || y.translateDict != target.translateDict) {
        assert y.translateDict.value !in mods;
        assert HookTablesOf(y) == old(HookTablesOf(y));
      }
    }
  }

  /** `o` is in `frame` or was allocated since the start of the enclosing
      method. */
  twostate predicate Kept(new o: object, new frame: set<object>) {
    o in frame || !old(allocated(o))
  }

  /** The vistrail step of translateBundle, when the bundle has a vistrail:
      the caller's vistrail extdata, or `{"id_remap": {}, "group_remaps": {}}`
      when there is none. */
  method BundleVistrail(v: Option<Doc>, given: ExtData?, dom: Domain)
    returns (r: Result<Option<Doc>, TranslateError>, used: ExtData?)
    modifies ExtObjects(given) - DictOf(given)
    ensures r.Success? ==> Stamped(r.value, v)
    ensures r.Failure? ==> v.Some? && r.error.MissingRemap?
    ensures (r, SlotOf(used)) == VistrailOutcome(dom, v, old(InstalledRule(given)), old(InstalledTables(given)), old(SlotOf(given)))
    ensures v.None? || given != null ==> used == given
    ensures used != given ==> used != null && fresh(used)
    ensures Within(used, old(ExtObjects(given)))
    ensures given != null ==> given.groupRemaps == old(given.groupRemaps) && given.translateDict == old(given.translateDict)
  {
    used := given;
    r := Success(None);
    if v.Some? {
      if given == null {
        used := NewExtData();
      }
      var d := TranslateVistrail(v.value, used, dom);
      r := SomeDoc(d);
    }
  }

  /** The registry step of translateBundle, when the bundle has a registry:
      the caller's registry extdata, or `{"id_remap": {}}` when there is
      none. */
  method BundleRegistry(g: Option<Doc>, given: ExtData?, dom: Domain) returns (r: Option<Doc>)
    modifies ExtObjects(given)
    ensures Stamped(r, g)
    ensures g.Some? ==>
      r == Some(DocSpec(dom, old(GivenRule(given)), RegistryKind, g.value, old(SeedOf(given)), old(GivenTables(given))).0)
    ensures BodyOf(r) == RegistryOutcome(dom, g, old(SlotOf(given)))
  {
    r := None;
    if g.Some? {
      var target := given;
      if target == null {
        target := new ExtData(Some(map[]), None, None);
      }
      var d := TranslateRegistry(g.value, target, dom);
      r := Some(d);
    }
  }


  /** The extdata a later step of translateBundle works on: the caller's
      (or a new one), seeded from `source` with the remap entries of `types`
      stripped, when there is a source. `ok` is false when the source has no
      remap to seed from. */
  method SeededExt(given: ExtData?, source: ExtData?, types: set<string>) returns (ok: bool, used: ExtData)
    modifies ExtObjects(given)
    ensures ok <==> source == null || old(source.idRemap).Some?
    ensures ok <==> Seeded(Defaulted(old(SlotOf(given))), old(SlotOf(source)), types).Success?
    ensures ok ==> SlotOf(used) == Seeded(Defaulted(old(SlotOf(given))), old(SlotOf(source)), types).value
    ensures ok && source != null && old(source.groupRemaps).Some? ==>
      && used.groupRemaps.Some?
      && used.groupRemaps.value.remaps ==
         (if given != null && old(given.groupRemaps).Some? then old(given.groupRemaps.value.remaps) else map[]) +
         old(source.groupRemaps.value.remaps)
    ensures ok && source != null && old(source.translateDict).Some? ==>
      && used.translateDict.Some?
      && used.translateDict.value.entries ==
         (if given != null && old(given.translateDict).Some? then old(given.translateDict.value.entries) else map[]) +
         old(source.translateDict.value.entries)
    ensures given != null ==> used == given
    ensures given == null ==> fresh(used)
    ensures Within(used, old(ExtObjects(given) + HookTablesOf(source)))
    ensures given != null && old(given.translateDict).Some? ==> given.translateDict == old(given.translateDict)
  {
    if given == null {
      used := NewExtData();
    } else {
      used := given;
    }
    ok := true;
    if source != null {
      ghost var before := EntriesOf(used);
      ghost var incoming := EntriesOf(source);
      ok := SeedFrom(used, source, types);
      if ok {
        HookTableOfMerge(before, incoming);
        assert EntriesOf(used) == before + incoming || EntriesOf(used) == before;
      }
      assert HookTablesOf(used) == HookTableOf(EntriesOf(used));
      assert HookTableOf(before) == old(HookTablesOf(given)) || fresh(used);
      assert HookTableOf(incoming) == old(HookTablesOf(source));
    }
  }

  /** The workflow step of translateBundle, when the bundle has a workflow:
      the caller's workflow extdata (or a new one), seeded from the
      vistrail's extdata with nothing stripped, when there is one. */
  method BundleWorkflow(w: Option<Doc>, given: ExtData?, source: ExtData?, dom: Domain)
    returns (r: Result<Option<Doc>, TranslateError>, used: ExtData?)
    modifies ExtObjects(given), HookTablesOf(source)
    ensures r.Success? ==> Stamped(r.value, w)
    ensures r.Failure? ==> r.error == MissingIdRemap
    ensures var (o, after) := SeededBody(dom, WorkflowKind, w, old(SlotOf(given)), old(SlotOf(source)), {});
      BodyResult(r) == o && (r.Success? ==> SlotOf(used) == after)
    ensures w.None? || given != null ==> used == given
    ensures used != given ==> used != null && fresh(used)
    ensures Within(used, old(ExtObjects(given) + HookTablesOf(source)))
    ensures given != null && old(given.translateDict).Some? ==> given.translateDict == old(given.translateDict)
  {
    used, r := given, Success(None);
    if w.Some? {
      var ok, u := SeededExt(given, source, {});
      used := u;
      if !ok {
        return Failure(MissingIdRemap), used;
      }
      var d := TranslateWorkflow(w.value, used, dom);
      r := Success(Some(d));
    }
  }

  /** The log step of translateBundle, when the bundle has a log: the
      caller's log extdata (or a new one), seeded from `source` with the
      remap entries of `types` stripped, when there is a source. */
  method BundleLog(l: Option<Doc>, given: ExtData?, source: ExtData?, types: set<string>, dom: Domain)
    returns (r: Result<Option<Doc>, TranslateError>, used: ExtData?)
    modifies ExtObjects(given), HookTablesOf(source)
    ensures r.Success? ==> Stamped(r.value, l)
    ensures r.Failure? ==> r.error == MissingIdRemap
    ensures var (o, after) := SeededBody(dom, LogKind, l, old(SlotOf(given)), old(SlotOf(source)), types);
      BodyResult(r) == o && (r.Success? ==> SlotOf(used) == after)
    ensures l.None? || given != null ==> used == given
    ensures Within(used, old(ExtObjects(given) + HookTablesOf(source)))
    ensures given != null && old(given.translateDict).Some? ==> given.translateDict == old(given.translateDict)
  {
    used, r := given, Success(None);
    if l.Some? {
      var ok, u := SeededExt(given, source, types);
      used := u;
      if !ok {
        return Failure(MissingIdRemap), used;
      }
      var d := TranslateLog(l.value, used, dom);
      r := Success(Some(d));
    }
  }

  /** The documents translateBundle has converted so far. */
  datatype Converted = Converted(vistrail: Option<Doc>, workflow: Option<Doc>, log: Option<Doc>, registry: Option<Doc>)

  /** `out` is present exactly when `input` is, and then carries the new
      version. */
  predicate Stamped(out: Option<Doc>, input: Option<Doc>) {
    (out.Some? <==> input.Some?) && (out.Some? ==> out.value.version == TargetVersion)
  }

  /** Everything the four extdata of a bundle reach. */
  function Reach(v: ExtData?, w: ExtData?, l: ExtData?, g: ExtData?): set<object>
    reads v, DictOf(v), w, DictOf(w), l, DictOf(l), g, DictOf(g)
  {
    ExtObjects(v) + ExtObjects(w) + ExtObjects(l) + ExtObjects(g)
  }

  lemma ReachCovers(v: ExtData?, w: ExtData?, l: ExtData?, g: ExtData?)
    ensures ExtObjects(v) <= Reach(v, w, l, g) && ExtObjects(w) <= Reach(v, w, l, g)
    ensures ExtObjects(l) <= Reach(v, w, l, g) && ExtObjects(g) <= Reach(v, w, l, g)
    ensures HookTablesOf(v) <= Reach(v, w, l, g) && HookTablesOf(w) <= Reach(v, w, l, g)
  {
  }

  /** Every object of `s` is in `frame` or new. */
  twostate predicate Inside(new s: set<object>, new frame: set<object>) {
    forall o :: o in s ==> Kept(o, frame)
  }

  twostate lemma ExtInside(new x: ExtData?, new frame: set<object>)
    requires Within(x, frame)
    ensures Inside(ExtObjects(x), frame)
  {
    forall o | o in ExtObjects(x)
      ensures Kept(o, frame)
    {
      if o in HookTablesOf(x) {
        assert o == x.translateDict.value.entries[GroupEntry].table;
      }
    }
  }

  twostate lemma ReachInside(new v: ExtData?, new w: ExtData?, new l: ExtData?, new g: ExtData?, new frame: set<object>)
    requires Within(v, frame) && Within(w, frame) && Within(l, frame) && Within(g, frame)
    ensures Inside(Reach(v, w, l, g), frame)
  {
    ExtInside(v, frame);
    ExtInside(w, frame);
    ExtInside(l, frame);
    ExtInside(g, frame);
    forall o | o in Reach(v, w, l, g)
      ensures Kept(o, frame)
    {
      assert o in ExtObjects(v) || o in ExtObjects(w) || o in ExtObjects(l) || o in ExtObjects(g);
    }
  }

  /** A step's frame holds no extdata but the one it works on, and no dict
      but that extdata's. */
  lemma ModsShape(given: ExtData?, source: ExtData?)
    ensures forall e: ExtData :: e in ExtObjects(given) + HookTablesOf(source) ==> e == given
    ensures forall d: TranslateDict :: d in ExtObjects(given) + HookTablesOf(source) ==>
      given != null && given.translateDict == Some(d)
  {
  }

  /** After a step that changed only `mods` and left its extdata in
      `target`, the four extdata of the bundle, `target` among them, reach
      only what they reached before the step, or new objects. */
  twostate lemma StepInside(new v: ExtData?, new w: ExtData?, new l: ExtData?, new g: ExtData?, given: ExtData?,
                            new target: ExtData?, new mods: set<object>, new stepFrame: set<object>,
                            new frame: set<object>)
    requires Within(target, stepFrame) && stepFrame <= frame
    requires forall o: object :: old(allocated(o)) && o !in mods ==> unchanged(o)
    requires forall e: ExtData :: e in mods ==> e == given
    requires forall d: TranslateDict :: d in mods ==> given != null && old(given.translateDict) == Some(d)
    requires given != null ==> target == given
    requires given != null && old(given.translateDict).Some? ==> given.translateDict == old(given.translateDict)
    requires v != null && v != target ==> old(allocated(v)) && old(ExtObjects(v)) <= frame
    requires w != null && w != target ==> old(allocated(w)) && old(ExtObjects(w)) <= frame
    requires l != null && l != target ==> old(allocated(l)) && old(ExtObjects(l)) <= frame
    requires g != null && g != target ==> old(allocated(g)) && old(ExtObjects(g)) <= frame
    ensures Inside(Reach(v, w, l, g), frame)
    ensures v != target ==> SlotOf(v) == old(SlotOf(v))
    ensures w != target ==> SlotOf(w) == old(SlotOf(w))
    ensures l != target ==> SlotOf(l) == old(SlotOf(l))
    ensures g != target ==> SlotOf(g) == old(SlotOf(g))
  {
    WithinGrow(target, stepFrame, frame);
    OtherWithin(v, given, target, mods, frame);
    OtherWithin(w, given, target, mods, frame);
    OtherWithin(l, given, target, mods, frame);
    OtherWithin(g, given, target, mods, frame);
    ReachInside(v, w, l, g, frame);
  }

  /** The log step of translateBundle: the log is seeded from the
      vistrail's extdata without its annotation entries, or else from the
      workflow's. */
  method LogStep(b: Bundle, vistrailExt: ExtData?, workflowExt: ExtData?, logExt: ExtData?, registryExt: ExtData?,
                 dom: Domain)
    returns (r: Result<Option<Doc>, TranslateError>)
    modifies ExtObjects(logExt), HookTablesOf(vistrailExt), HookTablesOf(workflowExt)
    ensures r.Success? ==> Stamped(r.value, b.log)
    ensures r.Failure? ==> r.error == MissingIdRemap
    ensures BodyResult(r) == LogOutcome(dom, b.log, old(SlotOf(vistrailExt)), old(SlotOf(workflowExt)), old(SlotOf(logExt)))
    ensures logExt != registryExt ==> SlotOf(registryExt) == old(SlotOf(registryExt))
    ensures Inside(ExtObjects(registryExt), old(Reach(vistrailExt, workflowExt, logExt, registryExt)))
  {
    ghost var frame := Reach(vistrailExt, workflowExt, logExt, registryExt);
    ReachCovers(vistrailExt, workflowExt, logExt, registryExt);
    var source, types := workflowExt, {};
    if vistrailExt != null {
      source, types := vistrailExt, {AnnotationType};
    }
    ghost var stepFrame := ExtObjects(logExt) + HookTablesOf(source);
    ModsShape(logExt, source);
    var used;
    r, used := BundleLog(b.log, logExt, source, types, dom);
    WithinGrow(used, stepFrame, frame);
    OtherWithin(registryExt, logExt, used, stepFrame, frame);
    ExtInside(registryExt, frame);
  }

  /** The log and registry steps of translateBundle, on the extdata the
      vistrail and workflow steps left behind. */
  method LogStage(b: Bundle, vistrailExt: ExtData?, workflowExt: ExtData?, logExt: ExtData?, registryExt: ExtData?,
                  dom: Domain)
    returns (r: Result<Converted, TranslateError>)
    modifies Reach(vistrailExt, workflowExt, logExt, registryExt)
    ensures r.Success? ==> r.value.vistrail.None? && r.value.workflow.None?
    ensures r.Success? ==> Stamped(r.value.log, b.log) && Stamped(r.value.registry, b.registry)
    ensures r.Failure? ==> r.error == MissingIdRemap
    ensures Apart(vistrailExt, workflowExt, logExt, registryExt) ==>
      Outlined(r) == LogStageOutcome(dom, b, old(SlotOf(vistrailExt)), old(SlotOf(workflowExt)),
                                     old(SlotOf(logExt)), old(SlotOf(registryExt)))
  {
    ReachCovers(vistrailExt, workflowExt, logExt, registryExt);
    var log := LogStep(b, vistrailExt, workflowExt, logExt, registryExt, dom);
    if log.Failure? {
      return Failure(log.error);
    }
    var registry := BundleRegistry(b.registry, registryExt, dom);
    r := Success(Converted(None, None, log.value, registry));
  }

  /** The workflow step of translateBundle, within the four extdata;
      returns the extdata it used. */
  method WorkflowStep(b: Bundle, vistrailExt: ExtData?, workflowExt: ExtData?, logExt: ExtData?, registryExt: ExtData?,
                      dom: Domain)
    returns (r: Result<Option<Doc>, TranslateError>, used: ExtData?)
    modifies ExtObjects(workflowExt), HookTablesOf(vistrailExt)
    ensures r.Success? ==> Stamped(r.value, b.workflow)
    ensures r.Failure? ==> r.error == MissingIdRemap
    ensures var (o, after) := WorkflowOutcome(dom, b.workflow, old(SlotOf(vistrailExt)), old(SlotOf(workflowExt)));
      BodyResult(r) == o && (r.Success? ==> SlotOf(used) == after)
    ensures b.workflow.None? || workflowExt != null ==> used == workflowExt
    ensures used != workflowExt ==> used != null && fresh(used)
    ensures Apart(vistrailExt, workflowExt, logExt, registryExt) ==>
      && SlotOf(vistrailExt) == old(SlotOf(vistrailExt))
      && SlotOf(logExt) == old(SlotOf(logExt)) && SlotOf(registryExt) == old(SlotOf(registryExt))
    ensures Inside(Reach(vistrailExt, used, logExt, registryExt), old(Reach(vistrailExt, workflowExt, logExt, registryExt)))
  {
    ghost var frame := Reach(vistrailExt, workflowExt, logExt, registryExt);
    ReachCovers(vistrailExt, workflowExt, logExt, registryExt);
    ghost var stepFrame := ExtObjects(workflowExt) + HookTablesOf(vistrailExt);
    ModsShape(workflowExt, vistrailExt);
    r, used := BundleWorkflow(b.workflow, workflowExt, vistrailExt, dom);
    StepInside(vistrailExt, used, logExt, registryExt, workflowExt, used, stepFrame, stepFrame, frame);
  }

  /** The workflow step of translateBundle, then the later ones. */
  method WorkflowStage(b: Bundle, vistrailExt: ExtData?, workflowExt: ExtData?, logExt: ExtData?, registryExt: ExtData?,
                       dom: Domain)
    returns (r: Result<Converted, TranslateError>)
    modifies Reach(vistrailExt, workflowExt, logExt, registryExt)
    ensures r.Success? ==> r.value.vistrail.None?
    ensures r.Success? ==>
      Stamped(r.value.workflow, b.workflow) && Stamped(r.value.log, b.log) && Stamped(r.value.registry, b.registry)
    ensures r.Failure? ==> r.error == MissingIdRemap
    ensures Apart(vistrailExt, workflowExt, logExt, registryExt) ==>
      Outlined(r) == WorkflowStageOutcome(dom, b, old(SlotOf(vistrailExt)), old(SlotOf(workflowExt)),
                                          old(SlotOf(logExt)), old(SlotOf(registryExt)))
  {
    var w, used := WorkflowStep(b, vistrailExt, workflowExt, logExt, registryExt, dom);
    assert Apart(vistrailExt, workflowExt, logExt, registryExt) ==> Apart(vistrailExt, used, logExt, registryExt);
    if w.Failure? {
      return Failure(w.error);
    }
    r := LogStage(b, vistrailExt, used, logExt, registryExt, dom);
    if r.Success? {
      r := Success(r.value.(workflow := w.value));
    }
  }

  /** The vistrail step of translateBundle, when the bundle has a vistrail;
      returns the extdata it used. */
  method VistrailStep(b: Bundle, vistrailExt: ExtData?, workflowExt: ExtData?, logExt: ExtData?, registryExt: ExtData?,
                      dom: Domain)
    returns (r: Result<Option<Doc>, TranslateError>, used: ExtData?)
    modifies ExtObjects(vistrailExt) - DictOf(vistrailExt)
    ensures (r, SlotOf(used)) ==
      VistrailOutcome(dom, b.vistrail, old(InstalledRule(vistrailExt)), old(InstalledTables(vistrailExt)),
                      old(SlotOf(vistrailExt)))
    ensures b.vistrail.None? || vistrailExt != null ==> used == vistrailExt
    ensures used != vistrailExt ==> used != null && fresh(used)
    ensures Apart(vistrailExt, workflowExt, logExt, registryExt) ==>
      && SlotOf(workflowExt) == old(SlotOf(workflowExt))
      && SlotOf(logExt) == old(SlotOf(logExt)) && SlotOf(registryExt) == old(SlotOf(registryExt))
    ensures Inside(Reach(used, workflowExt, logExt, registryExt), old(Reach(vistrailExt, workflowExt, logExt, registryExt)))
  {
    ghost var frame := Reach(vistrailExt, workflowExt, logExt, registryExt);
    ReachCovers(vistrailExt, workflowExt, logExt, registryExt);
    ghost var stepFrame := ExtObjects(vistrailExt);
    ghost var mods := stepFrame - DictOf(vistrailExt);
    ModsShape(vistrailExt, null);
    r, used := BundleVistrail(b.vistrail, vistrailExt, dom);
    StepInside(used, workflowExt, logExt, registryExt, vistrailExt, used, mods, stepFrame, frame);
  }

  /** The vistrail step of translateBundle, then the later ones. */
  method VistrailStage(b: Bundle, vistrailExt: ExtData?, workflowExt: ExtData?, logExt: ExtData?, registryExt: ExtData?,
                       dom: Domain)
    returns (r: Result<Converted, TranslateError>)
    modifies Reach(vistrailExt, workflowExt, logExt, registryExt)
    ensures r.Success? ==>
      && Stamped(r.value.vistrail, b.vistrail) && Stamped(r.value.workflow, b.workflow)
      && Stamped(r.value.log, b.log) && Stamped(r.value.registry, b.registry)
    ensures r.Failure? ==> r.error == MissingIdRemap || (b.vistrail.Some? && r.error.MissingRemap?)
    ensures Apart(vistrailExt, workflowExt, logExt, registryExt) ==>
      Outlined(r) == BundleOutcome(dom, b, old(InstalledRule(vistrailExt)), old(InstalledTables(vistrailExt)),
                                   old(SlotOf(vistrailExt)), old(SlotOf(workflowExt)),
                                   old(SlotOf(logExt)), old(SlotOf(registryExt)))
  {
    var v, used := VistrailStep(b, vistrailExt, workflowExt, logExt, registryExt, dom);
    assert Apart(vistrailExt, workflowExt, logExt, registryExt) ==> Apart(used, workflowExt, logExt, registryExt);
    if v.Failure? {
      return Failure(v.error);
    }
    r := WorkflowStage(b, used, workflowExt, logExt, registryExt, dom);
    if r.Success? {
      r := Success(r.value.(vistrail := v.value));
    }
  }

  /** translateBundle: the documents in a fixed order (vistrail, workflow,
      log, registry), each later one seeded from the extdata of an earlier
      one. Abstractions and mashups are not converted. */
  method TranslateBundle(b: Bundle, ext: BundleExtData?, dom: Domain) returns (r: Result<Bundle, TranslateError>)
    modifies Reach(GivenExt(ext, VistrailKind), GivenExt(ext, WorkflowKind), GivenExt(ext, LogKind), GivenExt(ext, RegistryKind))
    ensures r.Success? ==>
      && r.value.bundleType == b.bundleType
      && Stamped(r.value.vistrail, b.vistrail) && Stamped(r.value.workflow, b.workflow)
      && Stamped(r.value.log, b.log) && Stamped(r.value.registry, b.registry)
      && r.value.abstractions == [] && r.value.mashups == []
    ensures r.Failure? ==> r.error == MissingIdRemap || (b.vistrail.Some? && r.error.MissingRemap?)
    ensures var v, w, l, g := GivenExt(ext, VistrailKind), GivenExt(ext, WorkflowKind),
                              GivenExt(ext, LogKind), GivenExt(ext, RegistryKind);
      Apart(v, w, l, g) ==>
        var spec := BundleOutcome(dom, b, old(InstalledRule(v)), old(InstalledTables(v)),
                                  old(SlotOf(v)), old(SlotOf(w)), old(SlotOf(l)), old(SlotOf(g)));
        && (r.Success? <==> spec.Success?)
        && (r.Failure? ==> r.error == spec.error)
        && (r.Success? ==>
              spec.value == Outline(r.value.vistrail, BodyOf(r.value.workflow), BodyOf(r.value.log), BodyOf(r.value.registry)))
  {
    var c := VistrailStage(b, GivenExt(ext, VistrailKind), GivenExt(ext, WorkflowKind),
                           GivenExt(ext, LogKind), GivenExt(ext, RegistryKind), dom);
    if c.Failure? {
      return Failure(c.error);
    }
    r := Success(Bundle(b.bundleType, c.value.vistrail, c.value.workflow, c.value.log, c.value.registry, [], []));
  }
}

/** The checkout step of the Plastic SCM plugin: reconcile the registry's
    workspaces with a target path and selector. First as specification
    functions (what the step does to the workspace list and which calls it
    makes, in order), then as the imperative methods of the source, each
    proved against those functions. */
module CheckoutAction {
  import opened Paths
  import opened Selectors
  import opened Workspaces

  // ---------------------------------------------------------------------
  // Specification

  /** findWorkspaceByPath: the first workspace, in list order, whose path
      matches `p`; None when no path matches. */
  function FirstAtPath(items: seq<Workspace>, p: Path): (r: Option<Workspace>)
    ensures r.Some? ==> r.value in items && IsSamePath(r.value.path, p)
    ensures r.None? ==> forall w :: w in items ==> !IsSamePath(w.path, p)
  {
    if items == [] then None
    else if IsSamePath(items[0].path, p) then Some(items[0])
    else
      assert items == [items[0]] + items[1..];
      FirstAtPath(items[1..], p)
  }

  /** The result of findWorkspaceByPath as a list of zero or one workspace. */
  function Found(r: Option<Workspace>): seq<Workspace> {
    if r.Some? then [r.value] else []
  }

  /** findWorkspacesInsidePath: the workspaces whose containing directory
      matches `p`, every copy of each, in list order. */
  function InsidePath(items: seq<Workspace>, p: Path, ops: PathOps): (r: seq<Workspace>)
    ensures forall w :: w in r <==> w in items && IsSamePath(ops.directoryOf(w.path), p)
    ensures forall w: Workspace :: IsSamePath(ops.directoryOf(w.path), p) ==> multiset(r)[w] == multiset(items)[w]
    ensures multiset(r) <= multiset(items)
  {
    if items == [] then []
    else
      var n := |items| - 1;
      assert items == items[..n] + [items[n]];
      var front := InsidePath(items[..n], p, ops);
      if IsSamePath(ops.directoryOf(items[n].path), p) then front + [items[n]] else front
  }

  /** deleteWorkspace applied to each of `doomed` in turn: the list that is left. */
  function DeleteEach(items: seq<Workspace>, doomed: seq<Workspace>): seq<Workspace>
    decreases |doomed|
  {
    if doomed == [] then items
    else DeleteEach(RemoveFirst(items, doomed[0]), doomed[1..])
  }

  /** The calls deleteWorkspace makes for each of `deleted`, in turn: the
      server delete, then the wipe of the workspace's directory. */
  function DeletionEvents(deleted: seq<Workspace>): (r: seq<Event>)
    ensures |r| == 2 * |deleted|
  {
    if deleted == [] then []
    else [Deleted(deleted[0].path), ContentsWiped(deleted[0].path)] + DeletionEvents(deleted[1..])
  }

  /** What cleanOldWorkspacesIfNeeded leaves in the list, and which
      workspaces it deletes, in the order it deletes them. */
  datatype Plan = Plan(remaining: seq<Workspace>, deleted: seq<Workspace>)

  /** The three ways a listed workspace conflicts with the target: it sits
      at the target's parent, its directory is the target, or, when
      updates are not used, it sits at the target itself. */
  predicate Conflicting(w: Workspace, target: Path, useUpdate: bool, ops: PathOps) {
    IsSamePath(w.path, ops.parentOf(target)) ||
    IsSamePath(ops.directoryOf(w.path), target) ||
    (!useUpdate && IsSamePath(w.path, target))
  }

  /** One deletion step: `doomed` is deleted from what remains. */
  function Step(plan: Plan, doomed: seq<Workspace>): Plan {
    Plan(DeleteEach(plan.remaining, doomed), plan.deleted + doomed)
  }

  /** cleanOldWorkspacesIfNeeded: delete the first workspace at the
      target's parent, then every workspace inside the target, then, when
      updates are not used, the first workspace at the target. */
  function CleanOldPlan(items: seq<Workspace>, target: Path, useUpdate: bool, ops: PathOps): Plan {
    var afterParent := Step(Plan(items, []), Found(FirstAtPath(items, ops.parentOf(target))));
    var afterNested := Step(afterParent, InsidePath(afterParent.remaining, target, ops));
    if useUpdate then afterNested
    else Step(afterNested, Found(FirstAtPath(afterNested.remaining, target)))
  }

  /** What checkoutWorkspace returns and the calls it makes. */
  datatype Outcome = Outcome(workspace: Workspace, events: seq<Event>)

  /** checkoutWorkspace. A workspace at the target is cleaned, then either
      rebound (selector changed) or updated; otherwise a new workspace is
      created under `freshName`, cleaned and updated. */
  function CheckoutWorkspacePlan(items: seq<Workspace>, selectors: map<string, string>, target: Path,
                                 selector: string, freshName: string): (r: Outcome)
    requires Known(items, selectors)
    ensures IsSamePath(r.workspace.path, target)
    ensures r.workspace in items || r.workspace == Workspace(freshName, target)
  {
    IsSamePathReflexive(target);
    ReuseOrCreate(FirstAtPath(items, target), selectors, target, selector, freshName)
  }

  /** checkoutWorkspace once the workspace at the target has been looked up. */
  function ReuseOrCreate(found: Option<Workspace>, selectors: map<string, string>, target: Path,
                         selector: string, freshName: string): Outcome
    requires found.Some? ==> found.value.name in selectors
  {
    match found
    case Some(w) =>
      var bound := RemoveNewLinesFromSelector(selectors[w.name]);
      var last := if bound != RemoveNewLinesFromSelector(selector) then SelectorSet(target, selector)
                  else Updated(w.path);
      Outcome(w, [Cleaned(w.path), last])
    case None =>
      Outcome(Workspace(freshName, target),
              [Created(target, freshName, selector), Cleaned(target), Updated(target)])
  }

  /** checkout: clean old workspaces, wipe the target directory when updates
      are not used and it exists, then check out the workspace. */
  function CheckoutPlan(registered: seq<Workspace>, selectors: map<string, string>, onDisk: set<Path>,
                        target: Path, selector: string, useUpdate: bool, freshName: string,
                        ops: PathOps): (r: Outcome)
    requires Known(registered, selectors)
    ensures IsSamePath(r.workspace.path, target)
    ensures r.workspace in registered || r.workspace == Workspace(freshName, target)
  {
    var clean := CleanOldPlan(registered, target, useUpdate, ops);
    var wipe := if !useUpdate && target in onDisk then [ContentsWiped(target)] else [];
    CleanOldPartition(registered, target, useUpdate, ops);
    MultisetMembers(clean.remaining, registered);
    var co := CheckoutWorkspacePlan(clean.remaining, selectors, target, selector, freshName);
    Outcome(co.workspace, DeletionEvents(clean.deleted) + wipe + co.events)
  }

  // ---------------------------------------------------------------------
  // The source's methods, proved against the specification

  method FindWorkspaceByPath(workspaces: WorkspaceList, workspacePath: Path) returns (r: Option<Workspace>)
    ensures r == FirstAtPath(workspaces.items, workspacePath)
  {
    var items := workspaces.items;
    for i := 0 to |items|
      invariant FirstAtPath(items[i..], workspacePath) == FirstAtPath(items, workspacePath)
    {
      assert items[i..] == [items[i]] + items[i + 1..];
      if IsSamePath(items[i].path, workspacePath) {
        return Some(items[i]);
      }
    }
    return None;
  }

  method FindWorkspacesInsidePath(workspaces: WorkspaceList, workspacePath: Path, ops: PathOps)
    returns (result: seq<Workspace>)
    ensures result == InsidePath(workspaces.items, workspacePath, ops)
  {
    var items := workspaces.items;
    result := [];
    for i := 0 to |items|
      invariant result == InsidePath(items[..i], workspacePath, ops)
    {
      assert items[..i + 1][..i] == items[..i];
      var parentPath := ops.directoryOf(items[i].path);
      if IsSamePath(parentPath, workspacePath) {
        result := result + [items[i]];
      }
    }
    assert items[..|items|] == items;
  }

  method MustUpdateSelector(host: Host, name: string, selector: string) returns (b: bool)
    requires name in host.selectors
    ensures b <==> RemoveNewLinesFromSelector(host.selectors[name]) != RemoveNewLinesFromSelector(selector)
    ensures b <==> Canonical(host.selectors[name]) != Canonical(selector)
  {
    var loaded := host.LoadSelector(name);
    var wkSelector := RemoveNewLinesFromSelector(loaded);
    var currentSelector := RemoveNewLinesFromSelector(selector);
    RemoveNewLinesIsCanonical(loaded);
    RemoveNewLinesIsCanonical(selector);
    b := wkSelector != currentSelector;
  }

  method DeleteWorkspace(host: Host, workspace: Workspace, workspaces: WorkspaceList)
    modifies host, workspaces
    ensures host.log == old(host.log) + DeletionEvents([workspace])
    ensures workspaces.items == RemoveFirst(old(workspaces.items), workspace)
  {
    host.DeleteWorkspace(workspace.path);
    host.DeleteContents(workspace.path);
    workspaces.Remove(workspace);
  }

  /** Deletes each of `doomed` in turn, as the loop over the nested
      workspaces does. */
  method DeleteAll(host: Host, doomed: seq<Workspace>, workspaces: WorkspaceList)
    modifies host, workspaces
    ensures host.log == old(host.log) + DeletionEvents(doomed)
    ensures workspaces.items == DeleteEach(old(workspaces.items), doomed)
  {
    ghost var goal := DeleteEach(workspaces.items, doomed);
    ghost var log0 := host.log;
    assert log0 + DeletionEvents(doomed[..0]) == log0;
    for i := 0 to |doomed|
      invariant DeleteEach(workspaces.items, doomed[i..]) == goal
      invariant host.log == log0 + DeletionEvents(doomed[..i])
    {
      DeleteStep(workspaces.items, doomed, i);
      ghost var before := host.log;
      DeleteWorkspace(host, doomed[i], workspaces);
      PrefixLog(log0, doomed, i, before, host.log);
    }
    assert doomed[|doomed|..] == [] && doomed[..|doomed|] == doomed;
  }

  method CleanOldWorkspacesIfNeeded(host: Host, workspacePath: Path, shouldUseUpdate: bool,
                                    workspaces: WorkspaceList, ops: PathOps)
    modifies host, workspaces
    ensures var plan := CleanOldPlan(old(workspaces.items), workspacePath, shouldUseUpdate, ops);
            workspaces.items == plan.remaining && host.log == old(host.log) + DeletionEvents(plan.deleted)
  {
    ghost var log0 := host.log;
    ghost var plan := Plan(workspaces.items, []);
    assert host.log == log0 + DeletionEvents(plan.deleted) by {
      assert log0 + [] == log0;
    }

    // a workspace at the parent path
    var parentWorkspace := FindWorkspaceByPath(workspaces, ops.parentOf(workspacePath));
    ghost var before := host.log;
    DeleteFound(workspaces.items, parentWorkspace);
    if parentWorkspace.Some? {
      DeleteWorkspace(host, parentWorkspace.value, workspaces);
    } else {
      assert before + [] == before;
    }
    StepLog(before, log0, plan, Found(parentWorkspace));
    plan := Step(plan, Found(parentWorkspace));

    // workspaces inside the target path
    var nestedWorkspaces := FindWorkspacesInsidePath(workspaces, workspacePath, ops);
    before := host.log;
    DeleteAll(host, nestedWorkspaces, workspaces);
    StepLog(before, log0, plan, nestedWorkspaces);
    plan := Step(plan, nestedWorkspaces);

    if shouldUseUpdate {
      return;
    }

    // a workspace at the target path itself
    var workspace := FindWorkspaceByPath(workspaces, workspacePath);
    before := host.log;
    DeleteFound(workspaces.items, workspace);
    if workspace.Some? {
      DeleteWorkspace(host, workspace.value, workspaces);
    } else {
      assert before + [] == before;
    }
    StepLog(before, log0, plan, Found(workspace));
    plan := Step(plan, Found(workspace));
  }

  method CheckoutWorkspace(host: Host, workspacePath: Path, selector: string,
                           workspaces: WorkspaceList, freshName: string) returns (workspace: Workspace)
    requires Known(workspaces.items, host.selectors)
    modifies host
    ensures var plan := CheckoutWorkspacePlan(workspaces.items, host.selectors, workspacePath, selector, freshName);
            workspace == plan.workspace && host.log == old(host.log) + plan.events
  {
    ghost var log0 := host.log;
    var found := FindWorkspaceByPath(workspaces, workspacePath);
    ghost var plan := ReuseOrCreate(found, host.selectors, workspacePath, selector, freshName);
    if found.Some? {
      workspace := found.value;
      host.CleanWorkspace(workspace.path);
      ghost var afterClean := host.log;
      var mustUpdate := MustUpdateSelector(host, workspace.name, selector);
      if mustUpdate {
        host.SetWorkspaceSelector(workspacePath, selector);
        AppendTwo(log0, Cleaned(workspace.path), SelectorSet(workspacePath, selector), afterClean, host.log);
        return;
      } else {
        host.UpdateWorkspace(workspace.path);
        AppendTwo(log0, Cleaned(workspace.path), Updated(workspace.path), afterClean, host.log);
      }
    } else {
      var uniqueWorkspaceName := freshName;
      workspace := host.NewWorkspace(workspacePath, uniqueWorkspaceName, selector);
      ghost var afterNew := host.log;
      host.CleanWorkspace(workspace.path);
      ghost var afterClean := host.log;
      host.UpdateWorkspace(workspace.path);
      AppendThree(log0, Created(workspacePath, freshName, selector), Cleaned(workspacePath),
                  Updated(workspacePath), afterNew, afterClean, host.log);
    }
  }

  /** checkout. `freshName` stands for the name the tool generates for a new
      workspace. */
  method Checkout(host: Host, workspacePath: Path, selector: string, useUpdate: bool,
                  freshName: string, ops: PathOps) returns (workspace: Workspace)
    requires host.Valid()
    modifies host
    ensures var plan := CheckoutPlan(host.registered, host.selectors, host.onDisk, workspacePath,
                                     selector, useUpdate, freshName, ops);
            workspace == plan.workspace && host.log == old(host.log) + plan.events
  {
    ghost var log0 := host.log;
    var workspaces := host.LoadWorkspaces();
    CleanOldWorkspacesIfNeeded(host, workspacePath, useUpdate, workspaces, ops);
    ghost var clean := CleanOldPlan(host.registered, workspacePath, useUpdate, ops);
    ghost var afterClean := host.log;

    ghost var wipe: seq<Event> := [];
    if !useUpdate {
      var onDisk := host.Exists(workspacePath);
      if onDisk {
        host.DeleteContents(workspacePath);
        wipe := [ContentsWiped(workspacePath)];
      }
    }
    assert host.log == afterClean + wipe by {
      assert afterClean + [] == afterClean;
    }
    ghost var afterWipe := host.log;

    CleanOldPartition(host.registered, workspacePath, useUpdate, ops);
    MultisetMembers(clean.remaining, host.registered);
    workspace := CheckoutWorkspace(host, workspacePath, selector, workspaces, freshName);
    ghost var co := CheckoutWorkspacePlan(clean.remaining, host.selectors, workspacePath, selector, freshName);
    ChainLog(log0, DeletionEvents(clean.deleted), wipe, co.events, afterClean, afterWipe, host.log);
  }

  // ---------------------------------------------------------------------
  // Properties

  lemma {:induction false} DeletionEventsAppend(a: seq<Workspace>, b: seq<Workspace>)
    ensures DeletionEvents(a + b) == DeletionEvents(a) + DeletionEvents(b)
    decreases |a|
  {
    if a == [] {
      assert a + b == b;
    } else {
      assert (a + b)[1..] == a[1..] + b;
      DeletionEventsAppend(a[1..], b);
    }
  }

  /** Each deleted workspace contributes its server delete immediately
      followed by the wipe of its own directory. */
  lemma {:induction false} DeletionEventsAt(deleted: seq<Workspace>, k: nat)
    requires k < |deleted|
    ensures DeletionEvents(deleted)[2 * k] == Deleted(deleted[k].path)
    ensures DeletionEvents(deleted)[2 * k + 1] == ContentsWiped(deleted[k].path)
  {
    if k > 0 {
      DeletionEventsAt(deleted[1..], k - 1);
    }
  }

  /** findWorkspaceByPath returns the first match in list order. */
  lemma {:induction false} FirstAtPathIsFirstMatch(items: seq<Workspace>, p: Path, i: nat)
    requires i < |items| && IsSamePath(items[i].path, p)
    requires forall j :: 0 <= j < i ==> !IsSamePath(items[j].path, p)
    ensures FirstAtPath(items, p) == Some(items[i])
  {
    if i > 0 {
      FirstAtPathIsFirstMatch(items[1..], p, i - 1);
    }
  }

  /** `a` is `b` with some entries left out, the rest in the same order
      (matched greedily from the end). */
  predicate IsSubsequence(a: seq<Workspace>, b: seq<Workspace>)
    decreases |b|
  {
    if a == [] then true
    else if b == [] then false
    else if a[|a| - 1] == b[|b| - 1] then IsSubsequence(a[..|a| - 1], b[..|b| - 1])
    else IsSubsequence(a, b[..|b| - 1])
  }

  /** findWorkspacesInsidePath keeps the original list order. */
  lemma {:induction false} InsidePathKeepsOrder(items: seq<Workspace>, p: Path, ops: PathOps)
    ensures IsSubsequence(InsidePath(items, p, ops), items)
  {
    if items != [] {
      var n := |items| - 1;
      InsidePathKeepsOrder(items[..n], p, ops);
      var front := InsidePath(items[..n], p, ops);
      if !IsSamePath(ops.directoryOf(items[n].path), p) && front != [] {
        assert front[|front| - 1] in front;
      }
    }
  }

  lemma MultisetMembers(a: seq<Workspace>, b: seq<Workspace>)
    requires multiset(a) <= multiset(b)
    ensures forall w :: w in a ==> w in b
  {
    forall w | w in a ensures w in b {
      assert w in multiset(a);
    }
  }

  lemma StepLog(before: seq<Event>, log0: seq<Event>, plan: Plan, doomed: seq<Workspace>)
    requires before == log0 + DeletionEvents(plan.deleted)
    ensures before + DeletionEvents(doomed) == log0 + DeletionEvents(Step(plan, doomed).deleted)
  {
    DeletionEventsAppend(plan.deleted, doomed);
    ConcatAssociates(log0, DeletionEvents(plan.deleted), DeletionEvents(doomed));
  }

  lemma ChainLog(log0: seq<Event>, a: seq<Event>, b: seq<Event>, c: seq<Event>,
                  afterA: seq<Event>, afterB: seq<Event>, afterC: seq<Event>)
    requires afterA == log0 + a && afterB == afterA + b && afterC == afterB + c
    ensures afterC == log0 + (a + b + c)
  {
  }

  lemma AppendTwo(log0: seq<Event>, a: Event, b: Event, afterA: seq<Event>, afterB: seq<Event>)
    requires afterA == log0 + [a] && afterB == afterA + [b]
    ensures afterB == log0 + [a, b]
  {
  }

  lemma AppendThree(log0: seq<Event>, a: Event, b: Event, c: Event,
                     afterA: seq<Event>, afterB: seq<Event>, afterC: seq<Event>)
    requires afterA == log0 + [a] && afterB == afterA + [b] && afterC == afterB + [c]
    ensures afterC == log0 + [a, b, c]
  {
  }

  lemma DeleteFound(items: seq<Workspace>, found: Option<Workspace>)
    ensures DeleteEach(items, Found(found)) == if found.Some? then RemoveFirst(items, found.value) else items
    ensures DeletionEvents(Found(found)) == if found.Some? then DeletionEvents([found.value]) else []
  {
  }

  lemma PrefixLog(log0: seq<Event>, doomed: seq<Workspace>, i: nat, before: seq<Event>, after: seq<Event>)
    requires i < |doomed|
    requires before == log0 + DeletionEvents(doomed[..i])
    requires after == before + DeletionEvents([doomed[i]])
    ensures after == log0 + DeletionEvents(doomed[..i + 1])
  {
    assert doomed[..i + 1] == doomed[..i] + [doomed[i]];
    DeletionEventsAppend(doomed[..i], [doomed[i]]);
  }

  lemma DeleteStep(items: seq<Workspace>, doomed: seq<Workspace>, i: nat)
    requires i < |doomed|
    ensures DeleteEach(items, doomed[i..]) == DeleteEach(RemoveFirst(items, doomed[i]), doomed[i + 1..])
  {
    assert doomed[i..][1..] == doomed[i + 1..];
  }

  /** Deleting a sub-collection leaves the rest: what is deleted and what
      remains add up to the original list. */
  lemma {:induction false} DeleteEachMultiset(items: seq<Workspace>, doomed: seq<Workspace>)
    ensures multiset(DeleteEach(items, doomed)) == multiset(items) - multiset(doomed)
    decreases |doomed|
  {
    if doomed != [] {
      DeleteEachMultiset(RemoveFirst(items, doomed[0]), doomed[1..]);
      RemoveFirstCount(items, doomed[0]);
      MultisetOfCons(doomed);
      MultisetDifferenceAssociates(multiset(items), multiset{doomed[0]}, multiset(doomed[1..]));
    }
  }

  lemma DeleteEachPartition(items: seq<Workspace>, doomed: seq<Workspace>)
    requires multiset(doomed) <= multiset(items)
    ensures multiset(DeleteEach(items, doomed)) + multiset(doomed) == multiset(items)
  {
    DeleteEachMultiset(items, doomed);
    var r := DeleteEach(items, doomed);
    assert forall x :: (multiset(r) + multiset(doomed))[x] == multiset(items)[x];
  }

  /** cleanOldWorkspacesIfNeeded deletes only from the list: the snapshot
      splits exactly into the workspaces it deletes and those that remain. */
  lemma CleanOldPartition(items: seq<Workspace>, target: Path, useUpdate: bool, ops: PathOps)
    ensures var plan := CleanOldPlan(items, target, useUpdate, ops);
            multiset(plan.remaining) + multiset(plan.deleted) == multiset(items)
  {
    var p0 := Plan(items, []);
    var p1 := Step(p0, Found(FirstAtPath(items, ops.parentOf(target))));
    StepPartition(p0, Found(FirstAtPath(items, ops.parentOf(target))));
    var p2 := Step(p1, InsidePath(p1.remaining, target, ops));
    StepPartition(p1, InsidePath(p1.remaining, target, ops));
    if !useUpdate {
      StepPartition(p2, Found(FirstAtPath(p2.remaining, target)));
    }
  }

  /** A step that deletes workspaces still listed moves them from what
      remains to what is deleted. */
  lemma StepPartition(plan: Plan, doomed: seq<Workspace>)
    requires multiset(doomed) <= multiset(plan.remaining)
    ensures multiset(Step(plan, doomed).remaining) + multiset(Step(plan, doomed).deleted) ==
            multiset(plan.remaining) + multiset(plan.deleted)
  {
    DeleteEachPartition(plan.remaining, doomed);
  }

  /** No workspace is listed twice, and no two listed workspaces share a
      path in the sense of isSamePath. */
  predicate PathsDistinct(items: seq<Workspace>) {
    (forall w :: w in items ==> multiset(items)[w] == 1) &&
    (forall v, w :: v in items && w in items && IsSamePath(v.path, w.path) ==> v == w)
  }

  lemma PathsDistinctOfSub(a: seq<Workspace>, b: seq<Workspace>)
    requires multiset(a) <= multiset(b) && PathsDistinct(b)
    ensures PathsDistinct(a)
  {
    MultisetMembers(a, b);
    forall w | w in a ensures multiset(a)[w] == 1 {
      assert 0 < multiset(a)[w] <= multiset(b)[w];
    }
  }

  /** Deleting never adds: what is left is part of what was there. */
  lemma DeleteEachShrinks(items: seq<Workspace>, doomed: seq<Workspace>)
    ensures multiset(DeleteEach(items, doomed)) <= multiset(items)
    ensures forall w :: w in DeleteEach(items, doomed) ==> w in items
  {
    DeleteEachMultiset(items, doomed);
    MultisetMembers(DeleteEach(items, doomed), items);
  }

  /** Two listed workspaces that both match the same path are the same one. */
  lemma OnlyMatch(items: seq<Workspace>, p: Path, v: Workspace, w: Workspace)
    requires PathsDistinct(items) && v in items && w in items
    requires IsSamePath(v.path, p) && IsSamePath(w.path, p)
    ensures v == w
  {
    IsSamePathSymmetric(w.path, p);
    IsSamePathTransitive(v.path, p, w.path);
  }

  /** With distinct paths, findWorkspaceByPath finds the one workspace that
      matches, wherever it is listed. */
  lemma UniqueMatch(items: seq<Workspace>, p: Path, w: Workspace)
    requires PathsDistinct(items) && w in items && IsSamePath(w.path, p)
    ensures FirstAtPath(items, p) == Some(w)
  {
    var r := FirstAtPath(items, p);
    OnlyMatch(items, p, r.value, w);
  }

  /** With distinct paths, deleting what findWorkspaceByPath finds leaves
      nothing at that path. */
  lemma DeleteFoundLeavesNoMatch(items: seq<Workspace>, p: Path)
    requires PathsDistinct(items)
    ensures forall v :: v in DeleteEach(items, Found(FirstAtPath(items, p))) ==> !IsSamePath(v.path, p)
  {
    var found := FirstAtPath(items, p);
    DeleteFound(items, found);
    if found.Some? {
      var r := RemoveFirst(items, found.value);
      RemoveFirstCount(items, found.value);
      forall v | v in r && IsSamePath(v.path, p) ensures false {
        RemoveFirstMembers(items, found.value, v);
        OnlyMatch(items, p, v, found.value);
      }
    }
  }

  /** Deleting every workspace inside the target leaves none inside it,
      even when one is listed more than once. */
  lemma DeleteInsideLeavesNone(items: seq<Workspace>, target: Path, ops: PathOps)
    ensures forall v :: v in DeleteEach(items, InsidePath(items, target, ops)) ==>
              !IsSamePath(ops.directoryOf(v.path), target)
  {
    var nested := InsidePath(items, target, ops);
    DeleteEachMultiset(items, nested);
    forall v | v in DeleteEach(items, nested) && IsSamePath(ops.directoryOf(v.path), target)
      ensures false
    {
    }
  }

  /** When no two listed workspaces share a path, cleanOldWorkspacesIfNeeded
      leaves no workspace at the target's parent, none whose directory is
      the target, and, when updates are not used, none at the target. */
  lemma CleanOldRemovesConflicts(items: seq<Workspace>, target: Path, useUpdate: bool, ops: PathOps)
    requires PathsDistinct(items)
    ensures forall w :: w in CleanOldPlan(items, target, useUpdate, ops).remaining ==>
              !Conflicting(w, target, useUpdate, ops)
  {
    var p1 := Step(Plan(items, []), Found(FirstAtPath(items, ops.parentOf(target))));
    DeleteFoundLeavesNoMatch(items, ops.parentOf(target));
    DeleteEachShrinks(items, Found(FirstAtPath(items, ops.parentOf(target))));
    var p2 := Step(p1, InsidePath(p1.remaining, target, ops));
    DeleteInsideLeavesNone(p1.remaining, target, ops);
    DeleteEachShrinks(p1.remaining, InsidePath(p1.remaining, target, ops));
    if !useUpdate {
      PathsDistinctOfSub(p2.remaining, items);
      DeleteFoundLeavesNoMatch(p2.remaining, target);
      DeleteEachShrinks(p2.remaining, Found(FirstAtPath(p2.remaining, target)));
    }
  }

  /** When no two listed workspaces share a path, cleanOldWorkspacesIfNeeded
      deletes exactly the conflicting workspaces and keeps every other one. */
  lemma CleanOldDeletesExactlyConflicts(items: seq<Workspace>, target: Path, useUpdate: bool, ops: PathOps)
    requires PathsDistinct(items)
    ensures var plan := CleanOldPlan(items, target, useUpdate, ops);
            (forall w :: w in plan.deleted <==> w in items && Conflicting(w, target, useUpdate, ops)) &&
            (forall w :: w in plan.remaining <==> w in items && !Conflicting(w, target, useUpdate, ops))
  {
    var plan := CleanOldPlan(items, target, useUpdate, ops);
    CleanOldPartition(items, target, useUpdate, ops);
    CleanOldRemovesConflicts(items, target, useUpdate, ops);
    MultisetMembers(plan.deleted, items);
    MultisetMembers(plan.remaining, items);
    forall w | w in items ensures w in plan.remaining || w in plan.deleted {
      assert multiset(items)[w] == multiset(plan.remaining)[w] + multiset(plan.deleted)[w];
    }
    CleanOldDeletesOnlyConflicts(items, target, useUpdate, ops);
  }

  /** Every workspace cleanOldWorkspacesIfNeeded deletes conflicts with the target. */
  lemma CleanOldDeletesOnlyConflicts(items: seq<Workspace>, target: Path, useUpdate: bool, ops: PathOps)
    ensures forall w :: w in CleanOldPlan(items, target, useUpdate, ops).deleted ==>
              Conflicting(w, target, useUpdate, ops)
  {
  }

  /** checkoutWorkspace reuses a workspace exactly when one is listed at
      the target. A reused workspace is cleaned and then either rebound to
      the requested selector (when the normalised selectors differ) or
      updated, never both; otherwise a workspace is created under
      `freshName` at the target with the requested selector, then cleaned
      and updated. */
  lemma CheckoutWorkspaceCases(items: seq<Workspace>, selectors: map<string, string>, target: Path,
                               selector: string, freshName: string)
    requires Known(items, selectors)
    ensures var r := CheckoutWorkspacePlan(items, selectors, target, selector, freshName);
            (r.workspace in items <==> exists w :: w in items && IsSamePath(w.path, target)) &&
            (r.workspace in items ==>
               r.events == [Cleaned(r.workspace.path),
                            if Canonical(selectors[r.workspace.name]) != Canonical(selector)
                            then SelectorSet(target, selector) else Updated(r.workspace.path)]) &&
            (r.workspace !in items ==>
               r.workspace == Workspace(freshName, target) &&
               r.events == [Created(target, freshName, selector), Cleaned(target), Updated(target)])
  {
    var r := CheckoutWorkspacePlan(items, selectors, target, selector, freshName);
    if r.workspace in items {
      RemoveNewLinesIsCanonical(selectors[r.workspace.name]);
      RemoveNewLinesIsCanonical(selector);
    }
  }

  /** With updates on, a listed workspace at the target that conflicts in no
      other way survives the clean-up and is reused: it is cleaned, then
      rebound when its normalised selector differs from the requested one
      and updated otherwise; the target is not wiped and nothing is created. */
  lemma CheckoutReusesWorkspace(registered: seq<Workspace>, selectors: map<string, string>,
                                onDisk: set<Path>, target: Path, selector: string, freshName: string,
                                ops: PathOps, w: Workspace)
    requires Known(registered, selectors) && PathsDistinct(registered)
    requires w in registered && IsSamePath(w.path, target) && !Conflicting(w, target, true, ops)
    ensures var r := CheckoutPlan(registered, selectors, onDisk, target, selector, true, freshName, ops);
            r.workspace == w &&
            r.events == DeletionEvents(CleanOldPlan(registered, target, true, ops).deleted) +
                        [Cleaned(w.path),
                         if Canonical(selectors[w.name]) != Canonical(selector)
                         then SelectorSet(target, selector) else Updated(w.path)]
  {
    var clean := CleanOldPlan(registered, target, true, ops);
    CleanOldDeletesExactlyConflicts(registered, target, true, ops);
    CleanOldPartition(registered, target, true, ops);
    PathsDistinctOfSub(clean.remaining, registered);
    UniqueMatch(clean.remaining, target, w);
    CheckoutWorkspaceCases(clean.remaining, selectors, target, selector, freshName);
    var co := CheckoutWorkspacePlan(clean.remaining, selectors, target, selector, freshName);
    assert co.workspace == w;
    assert CheckoutPlan(registered, selectors, onDisk, target, selector, true, freshName, ops) ==
           Outcome(co.workspace, DeletionEvents(clean.deleted) + [] + co.events);
    assert DeletionEvents(clean.deleted) + [] == DeletionEvents(clean.deleted);
  }

  /** With updates off, every listed workspace at the target is deleted
      first, the target's contents are wiped when it exists, and a new
      workspace named `freshName` is created there, cleaned and updated. */
  lemma CheckoutCreatesWithoutUpdate(registered: seq<Workspace>, selectors: map<string, string>,
                                     onDisk: set<Path>, target: Path, selector: string,
                                     freshName: string, ops: PathOps)
    requires Known(registered, selectors) && PathsDistinct(registered)
    ensures var r := CheckoutPlan(registered, selectors, onDisk, target, selector, false, freshName, ops);
            var clean := CleanOldPlan(registered, target, false, ops);
            r.workspace == Workspace(freshName, target) &&
            r.events == DeletionEvents(clean.deleted) +
                        (if target in onDisk then [ContentsWiped(target)] else []) +
                        [Created(target, freshName, selector), Cleaned(target), Updated(target)] &&
            (forall w :: w in registered && IsSamePath(w.path, target) ==> w in clean.deleted)
  {
    var clean := CleanOldPlan(registered, target, false, ops);
    CleanOldDeletesExactlyConflicts(registered, target, false, ops);
    CleanOldPartition(registered, target, false, ops);
    MultisetMembers(clean.remaining, registered);
    CheckoutWorkspaceCases(clean.remaining, selectors, target, selector, freshName);
  }

  /** A requested selector that is the bound one plus a trailing "\r\n"
      (a workspace bound to "main" and a requested "main\r\n", say) is the
      same selector: the workspace is cleaned and updated, not rebound. */
  lemma TrailingLineBreakLeadsToUpdate(items: seq<Workspace>, selectors: map<string, string>,
                                       target: Path, selector: string, freshName: string, w: Workspace)
    requires Known(items, selectors) && FirstAtPath(items, target) == Some(w)
    requires selector == selectors[w.name] + "\r\n"
    ensures CheckoutWorkspacePlan(items, selectors, target, selector, freshName).events ==
            [Cleaned(w.path), Updated(w.path)]
  {
    TrailingLineBreakIgnored(selectors[w.name]);
  }
}

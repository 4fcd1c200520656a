/** Workspaces, the calls the checkout step makes to the Plastic SCM tool
    and the agent's filesystem, and the invocation-local workspace list. */
module Workspaces {
  import opened Paths

  datatype Option<T> = None | Some(value: T)

  /** A server-registered working copy: its name and its path. */
  datatype Workspace = Workspace(name: string, path: Path)

  /** One call to an external collaborator, as recorded in the host's log. */
  datatype Event =
    | Deleted(path: Path)                                // Workspaces.deleteWorkspace
    | ContentsWiped(path: Path)                          // FilePath.deleteContents
    | Cleaned(path: Path)                                // Workspaces.cleanWorkspace
    | Updated(path: Path)                                // Workspaces.updateWorkspace
    | SelectorSet(path: Path, selector: string)          // Workspaces.setWorkspaceSelector
    | Created(path: Path, name: string, selector: string) // Workspaces.newWorkspace

  /** Every listed workspace has a selector bound to its name. */
  predicate Known(items: seq<Workspace>, selectors: map<string, string>) {
    forall w :: w in items ==> w.name in selectors
  }

  /** List.remove(Object): the first entry equal to `w` is taken out. */
  function RemoveFirst<T(==)>(items: seq<T>, w: T): (r: seq<T>)
    ensures w in items ==> |r| == |items| - 1
    ensures w !in items ==> r == items
  {
    if items == [] then []
    else if items[0] == w then items[1..]
    else
      assert items == [items[0]] + items[1..];
      [items[0]] + RemoveFirst(items[1..], w)
  }

  /** Exactly one copy of `w` goes, when there is one. */
  lemma {:induction false} RemoveFirstCount<T>(items: seq<T>, w: T)
    ensures multiset(RemoveFirst(items, w)) == multiset(items) - multiset{w}
  {
    if items != [] {
      assert items == [items[0]] + items[1..];
      if items[0] != w {
        RemoveFirstCount(items[1..], w);
      }
    }
  }

  /** Removing `w` takes out exactly its first occurrence: everything
      before it and everything after it stays, in the same order. */
  lemma {:induction false} RemoveFirstSplits<T>(items: seq<T>, w: T) returns (i: nat)
    requires w in items
    ensures i < |items| && items[i] == w && w !in items[..i]
    ensures RemoveFirst(items, w) == items[..i] + items[i + 1..]
  {
    if items[0] == w {
      i := 0;
      assert items[..0] + items[1..] == items[1..];
    } else {
      var tail := items[1..];
      assert items == [items[0]] + tail;
      var j := RemoveFirstSplits(tail, w);
      i := j + 1;
      calc {
        RemoveFirst(items, w);
        [items[0]] + RemoveFirst(tail, w);
        [items[0]] + (tail[..j] + tail[j + 1..]);
        { ConcatAssociates([items[0]], tail[..j], tail[j + 1..]); }
        ([items[0]] + tail[..j]) + tail[j + 1..];
        { assert items[..i] == [items[0]] + tail[..j]; assert items[i + 1..] == tail[j + 1..]; }
        items[..i] + items[i + 1..];
      }
      assert w !in items[..i] by {
        assert items[..i] == [items[0]] + tail[..j];
      }
    }
  }

  lemma RemoveFirstKeepsOthers<T>(items: seq<T>, w: T, v: T)
    requires v in items && v != w
    ensures v in RemoveFirst(items, w)
  {
    RemoveFirstCount(items, w);
    assert multiset(RemoveFirst(items, w))[v] == multiset(items)[v];
  }

  lemma RemoveFirstMembers<T>(items: seq<T>, w: T, v: T)
    requires v in RemoveFirst(items, w)
    ensures v in items
  {
    RemoveFirstCount(items, w);
    assert v in multiset(RemoveFirst(items, w));
  }

  lemma MultisetDifferenceAssociates<T>(a: multiset<T>, b: multiset<T>, c: multiset<T>)
    ensures (a - b) - c == a - (b + c)
  {
    forall x ensures ((a - b) - c)[x] == (a - (b + c))[x] {
    }
  }

  lemma ConcatAssociates<T>(a: seq<T>, b: seq<T>, c: seq<T>)
    ensures (a + b) + c == a + (b + c)
  {
  }

  lemma MultisetOfCons<T>(s: seq<T>)
    requires s != []
    ensures multiset(s) == multiset{s[0]} + multiset(s[1..])
  {
    assert s == [s[0]] + s[1..];
  }

  /** The invocation-local snapshot of the registry, which the checkout
      step mutates as it deletes conflicting workspaces. */
  class WorkspaceList {
    var items: seq<Workspace>

    constructor (items: seq<Workspace>)
      ensures this.items == items
    {
      this.items := items;
    }

    method Remove(w: Workspace)
      modifies this
      ensures items == RemoveFirst(old(items), w)
    {
      items := RemoveFirst(items, w);
    }
  }

  /** The Plastic SCM tool together with the build agent's filesystem, as the
      checkout step sees them: the workspaces the server lists, the
      selector bound to each workspace name, the paths FilePath.exists
      reports as present when the step asks (after its deletions), and the
      log of every state-changing call made so far. */
  class Host {
    const registered: seq<Workspace>
    const selectors: map<string, string>
    const onDisk: set<Path>
    var log: seq<Event>

    /** Every listed workspace has a selector the tool can load. */
    predicate Valid() {
      Known(registered, selectors)
    }

    constructor (registered: seq<Workspace>, selectors: map<string, string>, onDisk: set<Path>)
      ensures this.registered == registered && this.selectors == selectors
      ensures this.onDisk == onDisk && log == []
    {
      this.registered := registered;
      this.selectors := selectors;
      this.onDisk := onDisk;
      log := [];
    }

    /** Workspaces.loadWorkspaces: a fresh list holding the server's snapshot. */
    method LoadWorkspaces() returns (list: WorkspaceList)
      ensures fresh(list) && list.items == registered
    {
      list := new WorkspaceList(registered);
    }

    /** Workspaces.loadSelector. */
    method LoadSelector(name: string) returns (selector: string)
      requires name in selectors
      ensures selector == selectors[name]
    {
      selector := selectors[name];
    }

    /** FilePath.exists. */
    method Exists(path: Path) returns (b: bool)
      ensures b <==> path in onDisk
    {
      b := path in onDisk;
    }

    method DeleteWorkspace(path: Path)
      modifies this
      ensures log == old(log) + [Deleted(path)]
    {
      log := log + [Deleted(path)];
    }

    /** FilePath.deleteContents: empties the directory, which itself stays. */
    method DeleteContents(path: Path)
      modifies this
      ensures log == old(log) + [ContentsWiped(path)]
    {
      log := log + [ContentsWiped(path)];
    }

    method CleanWorkspace(path: Path)
      modifies this
      ensures log == old(log) + [Cleaned(path)]
    {
      log := log + [Cleaned(path)];
    }

    method UpdateWorkspace(path: Path)
      modifies this
      ensures log == old(log) + [Updated(path)]
    {
      log := log + [Updated(path)];
    }

    method SetWorkspaceSelector(path: Path, selector: string)
      modifies this
      ensures log == old(log) + [SelectorSet(path, selector)]
    {
      log := log + [SelectorSet(path, selector)];
    }

    /** Workspaces.newWorkspace: registers a workspace of the given name at
        the given path, bound to the given selector. The returned workspace
        is taken to sit at the path it was asked for. */
    method NewWorkspace(path: Path, name: string, selector: string) returns (w: Workspace)
      modifies this
      ensures w == Workspace(name, path)
      ensures log == old(log) + [Created(path, name, selector)]
    {
      log := log + [Created(path, name, selector)];
      w := Workspace(name, path);
    }
  }
}

# Plastic SCM checkout step, modelled in Dafny

This project models the workspace reconciliation that the Plastic SCM
Jenkins plugin runs before every build (`CheckoutAction`). Given the
workspaces the Plastic server lists (a name and a path each), a target path,
a selector and a `useUpdate` flag, the step:

1. deletes the workspaces that conflict with the target: the first one at
   the target's parent directory, every one whose containing directory is the
   target, and, when `useUpdate` is false, the first one at the target itself.
   Each deletion is a server delete, then a wipe of that workspace's
   directory, then removal from the in-memory list;
2. wipes the target's contents when `useUpdate` is false and the target
   exists;
3. reuses the workspace listed at the target, or creates one with a freshly
   generated name;
4. cleans the reused workspace, then either rebinds it to the requested
   selector (when the two selectors differ once normalised) or updates it.
   A new workspace is cleaned and updated.

Paths are compared with `isSamePath`. It ignores case (ASCII
`equalsIgnoreCase`) when its second argument has the drive-letter form
`X:\...` (the pattern `^[a-zA-Z]:\\.*$`), and compares exactly otherwise.
Selectors are normalised by trimming, then removing `"\r\n"`, `"\n"` and
`"\r"` in that order.

Layout:

- `paths.dfy` (module `Paths`): the drive-letter pattern, `equalsIgnoreCase`,
  `isSamePath`, and the abstract path helpers.
- `selectors.dfy` (module `Selectors`): `String.trim`, `String.replace`, the
  selector normalisation, and a reference normal form.
- `workspaces.dfy` (module `Workspaces`): the workspace and event values,
  `List.remove`, the mutable workspace list (`WorkspaceList`), and `Host`.
  `Host` stands for the Plastic tool and the agent's filesystem. It answers
  queries from fixed data and appends one `Event` to its `log` for every
  state-changing call.
- `checkout.dfy` (module `CheckoutAction`): specification functions
  (`FirstAtPath`, `InsidePath`, `CleanOldPlan`, `CheckoutWorkspacePlan`,
  `CheckoutPlan`), then the source's methods. Each method is proved against
  its function: it returns the function's result and leaves the log as the
  old log followed by the function's events. The lemmas about those
  functions come last.

## Model

| member | source | states |
|---|---|---|
| Paths.IsSamePathCases | src/main/java/com/codicesoftware/plugins/hudson/actions/CheckoutAction.java:108-114 | When `actual` has the drive-letter form, isSamePath holds exactly when both paths are equal after lower-casing. Otherwise it holds exactly when they are equal. |
| Paths.EqualsIgnoreCaseIsLowerEquality | src/main/java/com/codicesoftware/plugins/hudson/actions/CheckoutAction.java:111 | Under ASCII case mapping, the per-character equalsIgnoreCase test (equal, or equal upper cases, or equal lower cases of upper cases) is equality after lower-casing. |
| Paths.IsSamePathReflexive | src/main/java/com/codicesoftware/plugins/hudson/actions/CheckoutAction.java:108-114 | Every path matches itself. |
| Paths.IsSamePathSymmetric | src/main/java/com/codicesoftware/plugins/hudson/actions/CheckoutAction.java:108-114 | Under ASCII case mapping, swapping the arguments never changes a match, although isSamePath reads its case policy from the second argument only. |
| Paths.IsSamePathTransitive | src/main/java/com/codicesoftware/plugins/hudson/actions/CheckoutAction.java:108-114 | Two paths that match a third match each other, so isSamePath is an equivalence. |
| Paths.WindowsPathUnderLowerCase | src/main/java/com/codicesoftware/plugins/hudson/actions/CheckoutAction.java:155 | Two paths that are equal after lower-casing either both have the drive-letter form or neither does. |
| Paths.CasePolicyExamples | src/main/java/com/codicesoftware/plugins/hudson/actions/CheckoutAction.java:108-114 | `c:\WS` matches the target `C:\ws`. `/Ws` does not match `/ws`. A drive-letter target holding a line feed falls back to exact comparison. |
| Selectors.Trim | src/main/java/com/codicesoftware/plugins/hudson/actions/CheckoutAction.java:77 | `String.trim` leaves no character at or below U+0020 at either end. |
| Selectors.RemoveNewLinesIsCanonical | src/main/java/com/codicesoftware/plugins/hudson/actions/CheckoutAction.java:76-78 | The chain trim, replace `"\r\n"`, replace `"\n"`, replace `"\r"` equals the reference: trim, then drop every CR and LF. |
| Selectors.RemoveNewLinesLeavesNoLineBreak | src/main/java/com/codicesoftware/plugins/hudson/actions/CheckoutAction.java:76-78 | The normalised selector holds no CR and no LF. |
| Selectors.RemoveNewLinesIsTrimmed | src/main/java/com/codicesoftware/plugins/hudson/actions/CheckoutAction.java:76-78 | The normalised selector is trimmed. |
| Selectors.RemoveNewLinesIdempotent | src/main/java/com/codicesoftware/plugins/hudson/actions/CheckoutAction.java:76-78 | Normalising twice gives the same result as normalising once. |
| Selectors.SameSelectorUnderNoise | src/main/java/com/codicesoftware/plugins/hudson/actions/CheckoutAction.java:76-78 | Leading and trailing whitespace and line breaks never change the normalised selector. |
| Selectors.TrimCommutesWithDropLineBreaks | src/main/java/com/codicesoftware/plugins/hudson/actions/CheckoutAction.java:76-78 | Trimming and then dropping every CR and LF gives the same string as dropping them first and then trimming. |
| Selectors.SameSelectorWithoutInnerBreak | src/main/java/com/codicesoftware/plugins/hudson/actions/CheckoutAction.java:76-78 | A line feed inside a selector is ignored: `a\nb` normalises like `ab`, for every `a` and `b`. |
| Selectors.TrailingLineBreakIgnored | src/main/java/com/codicesoftware/plugins/hudson/actions/CheckoutAction.java:76-78 | `s + "\r\n"` normalises like `s`. |
| Workspaces.RemoveFirst | src/main/java/com/codicesoftware/plugins/hudson/actions/CheckoutAction.java:121 | `List.remove` shortens the list by one when the workspace is listed and changes nothing otherwise. |
| Workspaces.RemoveFirstCount | src/main/java/com/codicesoftware/plugins/hudson/actions/CheckoutAction.java:121 | Exactly one copy of the workspace goes, and every other entry keeps its count. |
| Workspaces.RemoveFirstSplits | src/main/java/com/codicesoftware/plugins/hudson/actions/CheckoutAction.java:121 | Exactly the first occurrence is removed; the entries before and after it stay, in order. |
| Workspaces.RemoveFirstKeepsOthers | src/main/java/com/codicesoftware/plugins/hudson/actions/CheckoutAction.java:121 | Every other listed workspace is still listed afterwards. |
| Workspaces.WorkspaceList.Remove | src/main/java/com/codicesoftware/plugins/hudson/actions/CheckoutAction.java:121 | The list's new contents are its old contents with the first copy of the workspace removed. |
| CheckoutAction.FirstAtPath | src/main/java/com/codicesoftware/plugins/hudson/actions/CheckoutAction.java:134-141 | A result is a listed workspace whose path matches. No result means no listed path matches. |
| CheckoutAction.FirstAtPathIsFirstMatch | src/main/java/com/codicesoftware/plugins/hudson/actions/CheckoutAction.java:134-141 | The result is the first match in list order. |
| CheckoutAction.FindWorkspaceByPath | src/main/java/com/codicesoftware/plugins/hudson/actions/CheckoutAction.java:134-141 | The early-return loop returns exactly `FirstAtPath`. |
| CheckoutAction.InsidePath | src/main/java/com/codicesoftware/plugins/hudson/actions/CheckoutAction.java:143-153 | A workspace is in the result exactly when it is listed and its containing directory matches the target. Every copy of such a workspace is kept. |
| CheckoutAction.InsidePathKeepsOrder | src/main/java/com/codicesoftware/plugins/hudson/actions/CheckoutAction.java:143-153 | The result is a subsequence of the list: the original order is kept. |
| CheckoutAction.FindWorkspacesInsidePath | src/main/java/com/codicesoftware/plugins/hudson/actions/CheckoutAction.java:143-153 | The loop builds exactly `InsidePath`. The method has no `modifies` clause, so it cannot change the list. |
| CheckoutAction.MustUpdateSelector | src/main/java/com/codicesoftware/plugins/hudson/actions/CheckoutAction.java:68-74 | True exactly when the bound selector and the requested one differ in normal form: trimmed, without CR or LF. |
| CheckoutAction.DeletionEvents | src/main/java/com/codicesoftware/plugins/hudson/actions/CheckoutAction.java:116-122 | Deleting n workspaces makes 2n calls. |
| CheckoutAction.DeletionEventsAt | src/main/java/com/codicesoftware/plugins/hudson/actions/CheckoutAction.java:116-122 | The k-th deleted workspace causes the server delete of its path, then at once the wipe of that same path. |
| CheckoutAction.DeleteWorkspace | src/main/java/com/codicesoftware/plugins/hudson/actions/CheckoutAction.java:116-122 | Logs a server delete, then a content wipe of the workspace's path, and removes the workspace's first copy from the list. |
| CheckoutAction.DeleteAll | src/main/java/com/codicesoftware/plugins/hudson/actions/CheckoutAction.java:94-96 | Deleting each nested workspace in turn logs their deletions in list order and leaves `DeleteEach` of the list. |
| CheckoutAction.DeleteEachMultiset | src/main/java/com/codicesoftware/plugins/hudson/actions/CheckoutAction.java:94-96 | What is left is the list minus the deleted workspaces, counted with multiplicity. |
| CheckoutAction.CleanOldWorkspacesIfNeeded | src/main/java/com/codicesoftware/plugins/hudson/actions/CheckoutAction.java:80-106 | The list ends as `CleanOldPlan`'s remainder, and the log gains the deletion calls for `CleanOldPlan`'s deleted workspaces, in order. |
| CheckoutAction.CleanOldPartition | src/main/java/com/codicesoftware/plugins/hudson/actions/CheckoutAction.java:80-106 | The workspaces deleted and the workspaces remaining add up to the original list. |
| CheckoutAction.CleanOldDeletesOnlyConflicts | src/main/java/com/codicesoftware/plugins/hudson/actions/CheckoutAction.java:80-106 | Every deleted workspace is at the target's parent, or inside the target, or (without updates) at the target. |
| CheckoutAction.CleanOldRemovesConflicts | src/main/java/com/codicesoftware/plugins/hudson/actions/CheckoutAction.java:80-106 | If no two listed workspaces share a path, none remains at the parent, none remains inside the target, and without updates none remains at the target. |
| CheckoutAction.CleanOldDeletesExactlyConflicts | src/main/java/com/codicesoftware/plugins/hudson/actions/CheckoutAction.java:80-106 | If no two listed workspaces share a path, a workspace is deleted exactly when it is listed and conflicting, and it remains exactly when it is listed and not conflicting. |
| CheckoutAction.CheckoutWorkspacePlan | src/main/java/com/codicesoftware/plugins/hudson/actions/CheckoutAction.java:37-66 | The returned workspace's path matches the target. The workspace is a listed one or the new one named `freshName`. |
| CheckoutAction.CheckoutWorkspaceCases | src/main/java/com/codicesoftware/plugins/hudson/actions/CheckoutAction.java:37-66 | A listed workspace is reused exactly when one is listed at the target. Reuse: clean it, then rebind if the normal forms differ, else update, never both. Otherwise: create a workspace named `freshName` with the requested selector, then clean and update it. |
| CheckoutAction.CheckoutWorkspace | src/main/java/com/codicesoftware/plugins/hudson/actions/CheckoutAction.java:37-66 | Returns the plan's workspace and appends exactly the plan's calls to the log. |
| CheckoutAction.TrailingLineBreakLeadsToUpdate | src/main/java/com/codicesoftware/plugins/hudson/actions/CheckoutAction.java:49-54 | A workspace bound to `s`, checked out with `s + "\r\n"` (say "main" and "main\r\n"), is cleaned and updated, not rebound. |
| CheckoutAction.CheckoutPlan | src/main/java/com/codicesoftware/plugins/hudson/actions/CheckoutAction.java:20-35 | The checked-out workspace sits at the target. It is a listed one or the new one named `freshName`. |
| CheckoutAction.Checkout | src/main/java/com/codicesoftware/plugins/hudson/actions/CheckoutAction.java:20-35 | Returns the plan's workspace. The log gains, in order: the deletion calls, the optional wipe of the target, and the check-out calls. |
| CheckoutAction.CheckoutReusesWorkspace | src/main/java/com/codicesoftware/plugins/hudson/actions/CheckoutAction.java:20-35 | With updates on and distinct paths, a listed workspace at the target that conflicts in no other way is reused. It is cleaned, then rebound or updated. The target is not wiped and nothing is created. |
| CheckoutAction.CheckoutCreatesWithoutUpdate | src/main/java/com/codicesoftware/plugins/hudson/actions/CheckoutAction.java:20-35 | With updates off and distinct paths, every listed workspace at the target is deleted. The target is wiped exactly when `exists` reports it. A new workspace named `freshName` is created there, then cleaned and updated. |

## Left out

- Exceptions (`IOException`, `InterruptedException`, `ParseException`): every call to the tool or the filesystem succeeds. A failure part-way through, and the missing rollback, are not modelled.
- `Checkout`, `CheckoutWorkspace`, `MustUpdateSelector`: require that every listed workspace has a selector the tool can load (`Host.Valid`, `Workspaces.Known`). What `Workspaces.loadSelector` does for an unknown name is not part of this model.
- `FilePath.getParent` and `FilenameUtils.getFullPathNoEndSeparator` are not part of this model. They are the arbitrary functions `PathOps.parentOf` and `PathOps.directoryOf`, and every property holds for any pair of them. A `null` parent (the target is a root) is not modelled.
- `Workspaces.generateUniqueWorkspaceName` is random. It is the parameter `freshName`.
- The Plastic tool and the filesystem answer from fixed data (`Host.registered`, `Host.selectors`, `Host.onDisk`). The model records the calls the step makes to them, in order and with their arguments, given those answers. It does not model how the server or the disk reacts to the calls.
- `Checkout`: `Host.onDisk` is taken to be what `FilePath.exists` answers at line 30, after the deletions. Deleting a workspace wipes its directory (line 120), and so can remove the target. Example: the workspace at the parent `/a` of target `/a/b` is wiped, so `/a/b` no longer exists. The model does not derive this. If `onDisk` still lists the target, the model logs a second wipe that Java never makes.
- `Checkout`, `CheckoutWorkspace`: `Workspaces.newWorkspace` is assumed to return a workspace at the path it was given (`Host.NewWorkspace`). The create case of "the workspace sits at the target" rests on this.
- `equalsIgnoreCase` uses ASCII case mapping only. Java's full Unicode upper- and lower-casing is not modelled.
- Paths.EqualsIgnoreCaseIsLowerEquality: holds for ASCII case mapping only. In Java, `Character.toUpperCase('ı')` is `'I'`, so `"ı"` and `"i"` are `equalsIgnoreCase`-equal but differ after lower-casing.
- Paths.IsSamePathSymmetric: holds for ASCII case mapping only. In Java, `isSamePath("ı:\\x", "i:\\x")` is true, because the second argument has the drive-letter form and `'ı'` upper-cases to `'I'`. Swapped, it is false: `'ı'` is not in `[a-zA-Z]`, so the comparison is exact. `CheckoutAction.OnlyMatch`, `CheckoutAction.UniqueMatch` and `CheckoutAction.CheckoutReusesWorkspace` rely on this symmetry, so they too hold only for ASCII case mapping.
- The regex engine: `windowsPathPattern` is the predicate `IsWindowsPath`. `.` refuses the line terminators `\n`, `\r`, U+0085, U+2028 and U+2029.
- `List.remove` removes the first entry equal to the argument. Java's `Workspace.equals` is not part of this model, so value equality is assumed. This is the same as identity unless a workspace is listed twice.
- Logging, and the deprecated, unused `findWorkspaceByName`.

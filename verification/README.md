# Model of the DPE context forest and certificate writer

This project models the stateful core of the DICE Protection Environment (DPE) implementation and proves
properties of it. It has two halves that share the context array.

**The context forest.** A DPE keeps up to 64 contexts in a fixed array. The tree they form is stored twice: as parent
indices, which the path iterator follows, and as children bitmaps, which the validator, the descendant search and
the destruction sweep follow. `Forest` says what it means for the two copies to agree, `States` turns the validator's
rules into one predicate `Valid`, `Faults` says in fields what each validation error means, and `Validation` proves that
the executable validator decides `Valid`, that this is the absence of all faults, and that a reported fault is there.
`Commands` gives each command as a function from machine to outcome; `Instance` has the commands as they run, changing the
array in place, and proves each equal to its function.

What those functions mean is told a second time, in fields of the state before and after and without any of their parts:
`Laws` has one law for each command, and a command is answered exactly if its law holds; `Refusals` has the reason behind
every error. From the laws `Promises` derives what callers rely on: that answered handles work and used ones do not, that
permissions are asked for, that removal removes. About all commands it is proved that they keep the state
well formed (`Preservation`), what becomes of handles and default contexts (`Handles`), what failures leave behind and
what the measurement registers hold (`History`), what contexts inherit and whose keys a command can change (`Kinship`),
and what follows for arbitrary runs from a new DPE (`Runs`).

**The DER writer.** Certificates, CSRs and CMS messages are written as nested TLVs into a bounded buffer. Inner sizes
are computed beforehand by a parallel family of size functions; outer sizes are reserved as three bytes and filled in
afterwards through a stack of offsets; writes that do not fit are dropped but counted. `Der` has lengths, minimal
integers and TLV trees with a strict parser; `CertTrees` has the tree of every structure, the size the writer claims
for it, and a layout lemma that ties the two; `CertForms` has the bytes of whole documents as written; `CertTheorems`
says exactly when those bytes are the DER encoding of the intended tree, and `Mismatch` has a run after which they are not; `CertWriters` is the imperative writer, proved
to lay down exactly those bytes; `Generate` goes from a fresh writer to the finished document and back through the parser; `KeyCertificates` puts the
document behind the response header and orders it with the roll of the handle.

Again the contents are told independently of the writer: `CertReader` reads a document back by tags and object
identifiers alone, `Oids` decodes the identifiers to their dotted forms, and `CertContents` proves that the reader finds
in certificates, CSRs and CMS messages what the caller put in, the contexts of the path root first among it.

The halves meet in the path from a root to a context: the measurement hash consumes it (`Measurement`), and the
certificate lists one TCB info per node of it (`CertWriters.CertWriter.EncodeTcbInfos`). From either, the nodes can be
read back: `Measurement.EqualInputEqualPaths`, `CertContents.SignedRead`.

## Where the code differs from what is said about it

These are results, each proved with its exact condition or a concrete input.

* The size of the MultiTcbInfo extension is computed from the SVN of slot 0 of the array, not of the nodes that are
  written (dpe/src/context.rs:396-400). The certificate or CSR is the DER encoding of its tree exactly when the SVN widths
  on the path sum to as many times the width of slot 0's SVN: `CertTheorems.HonestIff`, `CertTheorems.SignedFaithful`.
  A size that is too large, or one too small, makes the document unreadable: `CertTheorems.WrongClaimUnreadable`. With a size
  that is smaller still it is up to the bytes left over: the document is read exactly if its extensions or attributes are,
  `CertTheorems.ReadableIff`. A root with SVN 0 in slot 0 and a child with SVN 128, which two
  commands make, is enough for a signed certificate that cannot be read: `ChildOfFirstSlot`, `Mismatch.MismatchIsEmitted`.
  Slot 0 matters even for a tree it is not part of: `RootOutsideFirstSlot`. Destroying an
  unrelated context in slot 0 can break or repair it: `DestroyKeepsCertificate`.
* A failed command is expected to leave the contexts unchanged (dpe/fuzz/src/fuzz_target_1.rs:85-87). UpdateContextMeasurement
  stores the parent's new handle before it draws the child's; if that draw fails the parent keeps the new handle: `History.FailureAtomicity`, `History.HalfwayExample`.
* DeriveContext draws the child's handle while the array still holds the parent's old one. If the random source gives the
  same value twice, parent and child share a handle: `Handles.ExecuteDistinct`, `Runs.RunDistinct`, `Runs.CollisionExample`.
* A handle of its own is used up by the command it is given to, except that UpdateContextMeasurement draws the child's handle
  after the parent has given up its own, so the child may inherit it: `Promises.HandleUsedUp`, `Promises.ReuseExample`.
* InitializeContext does not look at the other contexts of the locality, so it can produce a state that the validator
  rejects: `Handles.InitializeRule`, `Runs.UnsafeInitializeExample`.
* The comment on the backtrack stack gives 7 as the deepest path (dpe/src/x509.rs:66); a CMS message reaches 8 of the 10
  entries: `Generate.GenerateCms`.
* The comment at dpe/src/context.rs:55 speaks of a 32-bit children map and 32 contexts; the code has 64 bits and allows 64.

## Model

| member | source | states |
|---|---|---|
| `Bitmap.MaskMembers` | dpe/src/dpe_instance.rs:405-410 | masking with the shifted all-ones word keeps exactly the members below `max` |
| `Bitmap.OrMembers` | dpe/src/context.rs:262-264 | adding children to the word is set union |
| `Bitmap.AndNotMembers` | dpe/src/context.rs:267-269 | removing children from the word is set difference |
| `Bitmap.BitMembers` | dpe/src/context.rs:234-241 | the word for one child is the singleton of its index |
| `Bitmap.ZeroMembers` | dpe/src/context.rs:243-246 | a word is zero exactly when no index below 64 is a member |
| `Bitmap.AscendingSpec` | dpe/src/dpe_instance.rs:398-427 | the enumeration lists exactly the members of its range |
| `Bitmap.AscendingSorted` | dpe/src/dpe_instance.rs:398-427 | the enumeration is strictly increasing, so each member comes once |
| `Bitmap.FlagsIter.constructor` | dpe/src/dpe_instance.rs:405-410 | a new iterator has still to yield exactly the members below `max`, ascending |
| `Bitmap.FlagsIter.Next` | dpe/src/dpe_instance.rs:416-427 | yields the head of what is left and clears exactly that bit; nothing is left exactly when it yields none |
| `Bitmap.Enumerate` | dpe/src/context.rs:272-274 | a loop over the iterator meets exactly the members below `max`, ascending |
| `RootToChild.LineageIsReversedPath` | dpe/src/context.rs:352-360 | reading the leaf-to-root path backwards gives the contexts from the root down |
| `RootToChild.RootToChildIter.New` | dpe/src/context.rs:363-386 | on every array, cyclic or corrupt ones included, ends, and succeeds exactly when the parent links lead from the leaf to a root; then it will yield the path root first |
| `RootToChild.RootToChildIter.GetContext` | dpe/src/context.rs:403-418 | accepts exactly the live slots with a usable parent index |
| `RootToChild.RootToChildIter.Next` | dpe/src/context.rs:424-447 | an iterator made by `New` yields its contexts one by one and never an error |
| `Forest.PathDistinct` | dpe/src/context.rs:363-386 | a path to the root visits no slot twice and only live ones |
| `Forest.SubtreeSplit` | dpe/src/state.rs:170-184 | what lies below a slot by parent links is the slot and the subtrees of the children it lists: the two views of the tree are dual |
| `Forest.SubtreesDisjoint` | dpe/src/validation.rs:314-346 | subtrees of different slots of equal depth do not meet |
| `Validation.CheckSupport` | dpe/src/validation.rs:158-177 | accepts exactly the contexts whose flags and type the DPE supports, and otherwise reports a fault of the slot |
| `Validation.ValidateInactiveContext` | dpe/src/validation.rs:180-195 | accepts exactly the clean inactive slots, and otherwise reports a fault of the slot |
| `Validation.CheckChildrenAndParent` | dpe/src/validation.rs:198-238 | accepts exactly the slots whose parent lists them and whose listed children name them as parent, all live, and otherwise reports a fault of the links |
| `Validation.CheckContextHandlesPerLocality` | dpe/src/validation.rs:242-264 | accepts exactly when no active context shares its locality with another active context while one of them has the default handle, and otherwise reports which kind of pair there is |
| `Validation.ValidateDpeState` | dpe/src/validation.rs:110-155 | accepts exactly the states with the right marker, version and support, whose every slot is clean if inactive, and otherwise linked, not a dangling retired one, in one locality with its TCI, within the support, and initialized if Normal and active; an error it reports is a fault of the state |
| `Validation.DetectInvalidSubtree` | dpe/src/validation.rs:314-346 | started in an unvisited subtree, visits exactly that subtree, or reports a foreign context type in it; it never meets a visited slot |
| `Validation.FreshChild` | dpe/src/validation.rs:334-343 | after some children are done the next child is still unvisited |
| `Validation.NextRoot` | dpe/src/validation.rs:286-297 | a search may start at the next root: nothing below it was visited |
| `Validation.AllSearched` | dpe/src/validation.rs:299-305 | after all roots are searched without error, exactly the slots with a path to a root are visited, so a cycle always surfaces; the trees are uniform and the Normal ones counted |
| `Validation.CountInDegrees` | dpe/src/validation.rs:268-284 | on linked slots counts one for every slot that some slot lists as a child, and none for the others |
| `Validation.ValidateContextForest` | dpe/src/validation.rs:268-312 | on linked slots accepts exactly the forests with uniform trees and at most one Normal tree, and every error it reports is true |
| `Validation.ValidateDpe` | dpe/src/validation.rs:100-106 | the validator accepts exactly the valid states, which are those without any fault, and otherwise reports a fault that the state has |
| `Validation.VerdictTrue` | dpe/src/validation.rs:268-346 | on a linked array, the fault the search reports is one of the state |
| `Faults.ValidIffFaultless` | dpe/src/validation.rs:19-46 | a state is valid exactly if it has none of the faults that the error codes stand for, each told in fields of one slot, of two slots, or of slots in use whose parents are all among them |
| `Faults.UnrootedEndless` | dpe/src/validation.rs:307-311 | on a linked array, a slot in use from which no root is reached shows such a set of slots |
| `Destruction.InDoomed` | dpe/src/commands/destroy_context.rs:44-70 | what the bitmap collects: the target's subtree and the run of dangling ancestors |
| `Destruction.DestroyRemovesExactly` | dpe/src/commands/destroy_context.rs:30-87 | a live context is deactivated exactly when it is at or below the target, or above it with nothing but dangling contexts from it down to the target |
| `Destruction.DoomedClosedDown` | dpe/src/commands/destroy_context.rs:44-70 | whatever is below a removed context is removed: no ancestor of a survivor goes |
| `Destruction.DestroyKeepsWellFormed` | dpe/src/commands/destroy_context.rs:72-85 | what is left is well formed, with no dangling retired context |
| `Destruction.SurvivorLineage` | dpe/src/commands/destroy_context.rs:72-85 | every survivor keeps its path from the root, each context on it unchanged but for lost children |
| `Commands.ActivePosSpec` | dpe/src/state.rs:121-155 | lookup finds the first active context with handle and locality; otherwise no context matches both, and the error tells whether the locality or the handle matched nothing |
| `Commands.NextInactiveSpec` | dpe/src/state.rs:157-161 | finds the first inactive slot, or none exactly if there is none |
| `Commands.CountActiveSpec` | dpe/src/state.rs:191-193 | the count of active contexts of a locality is the size of the set of their indices |
| `Commands.NewHandleSpec` | dpe/src/dpe_instance.rs:205-224 | a generated handle is one of the values drawn, not the default one, and held by no slot |
| `Preservation.NodeUpdateKeepsWellFormed` | dpe/src/commands/rotate_context.rs:120-130 | overwriting handle and digests of one context keeps the state well formed |
| `Preservation.ActiveBelow` | dpe/src/validation.rs:223-236 | every retired context has an active descendant |
| `Preservation.NoNormalRoot` | dpe/src/commands/initialize_context.rs:67-92 | before the one-time initialization there is no Normal tree at all |
| `Preservation.NewRootKeepsWellFormed` | dpe/src/commands/initialize_context.rs:86-121 | activating a root in a free slot keeps the state well formed |
| `Preservation.NewChildKeepsWellFormed` | dpe/src/context.rs:122-164 | activating a free slot as a child of an active context, which may retire, keeps the state well formed |
| `Preservation.DeriveChildEffect` | dpe/src/commands/derive_context.rs:428-506 | DeriveContext stores a child exactly if there are a free slot, a safe locality, a first measurement and a handle for it; what it stores then |
| `Preservation.ExecuteKeepsWellFormed` | dpe/src/commands/mod.rs:309-332 | every command, accepted or rejected, from any locality and with any randomness, keeps the state well formed |
| `Handles.DeriveDistinct` | dpe/src/commands/derive_context.rs:346-506 | DeriveContext keeps the handles of active contexts distinct exactly unless the request admits a child and its two draws collide, both told from the state before |
| `Handles.ExecuteDistinct` | dpe/src/dpe_instance.rs:205-243 | after any command the handles are distinct exactly unless it is such a request |
| `Handles.InitializeRule` | dpe/src/commands/initialize_context.rs:65-121 | the rule on default handles survives InitializeContext exactly unless the request, as told from the state before, adds a root to a locality that is not safe |
| `Handles.RotateRule` | dpe/src/commands/rotate_context.rs:85-129 | RotateContext keeps the rule on default handles |
| `Handles.SafeChildRule` | dpe/src/commands/derive_context.rs:116-223 | a child made in a locality that is safe for it keeps the rule |
| `Handles.ExecuteRule` | dpe/src/validation.rs:242-264 | every command keeps the rule, exactly unless it is such an InitializeContext |
| `Runs.NewStateValid` | dpe/src/state.rs:62-74 | a new state is valid |
| `Runs.RunValid` | dpe/src/validation.rs:100-106 | after any run without unsafe initialization, a valid state is still valid |
| `Runs.RunDistinct` | dpe/src/dpe_instance.rs:205-243 | over any run and with any random source, the handles are distinct at every point exactly if no step admits a child while its two draws collide |
| `Runs.SingleDrawsCollisionFree` | dpe/src/commands/derive_context.rs:353-354 | no such step exists in runs without a DeriveContext that draws for both parent and child, whatever the source |
| `Runs.NoRepeatsCollisionFree` | dpe/src/dpe_instance.rs:205-224 | nor in runs during which no value was drawn twice |
| `Runs.NewDpeRuns` | dpe/src/dpe_instance.rs:160-186 | whatever is requested of a new DPE, its state stays well formed, valid if the initializations were safe, and its handles distinct all along exactly if no two draws collide |
| `Runs.CollisionExample` | dpe/src/commands/derive_context.rs:346-506 | a valid state, with registers of any size, and a source that says one value twice: parent and child get one handle |
| `Runs.UnsafeInitializeExample` | dpe/src/commands/initialize_context.rs:86-121 | a simulation root beside the default root makes the validator's rule fail |
| `History.UpdateTarget` | dpe/src/commands/update_context_measurement.rs:74-99 | the context that is extended is another one than the one that authorizes it |
| `History.UpdateEffect` | dpe/src/commands/update_context_measurement.rs:74-124 | one child's registers are extended; otherwise only the two handles change |
| `History.FailureAtomicity` | dpe/fuzz/src/fuzz_target_1.rs:85-87 | with room for the response, a rejected command changes the state exactly if it is UpdateContextMeasurement and stopped between its two handles; such a command is always rejected and has changed the parent's handle and nothing else |
| `History.HalfwayExample` | dpe/src/commands/update_context_measurement.rs:106-119 | a valid state, with registers of any size, a source that answers once, and a command that stops halfway |
| `History.ExecuteHistory` | dpe/src/dpe_instance.rs:255-286 | executing a command and extending the logs keeps registers and logs in step |
| `History.RunHistory` | dpe/src/dpe_instance.rs:276-286 | after any run, every live context's cumulative register is the fold of the hash over all measurements since its activation, and the current one is the last |
| `Kinship.ExecuteKin` | dpe/src/commands/derive_context.rs:254-281 | every command leaves a live context's parent, type, locality, SVN and permissions alone, and adds at most one context: a root, or a child that its parent permits, of a type its siblings have not |
| `Kinship.RunKin` | dpe/src/commands/derive_context.rs:341-343 | over any run, live siblings have different types, and no context may do what its parent may not |
| `Kinship.NewDpeKin` | dpe/src/commands/derive_context.rs:341-343 | in particular from a new DPE |
| `Kinship.AncestorsPermit` | dpe/src/commands/derive_context.rs:475-481 | nor what any ancestor may not |
| `Kinship.UpdateTargetUnique` | dpe/src/commands/update_context_measurement.rs:74-91 | among such siblings, UpdateContextMeasurement measures the only child of the type it asks for |
| `Kinship.ExecuteKeepsHashInput` | dpe/src/dpe_instance.rs:343-357 | a context that survives a command keeps its hash input, unless the command measures a context on its path |
| `Laws.NamesIff` | dpe/src/state.rs:121-155 | the lookup finds exactly the first active context of the locality with the handle |
| `Laws.DrawsIff` | dpe/src/dpe_instance.rs:205-224 | a new handle is exactly the first usable draw, within the attempts, of a source that has not failed before |
| `Laws.NoHandleIff` | dpe/src/dpe_instance.rs:205-224 | there is none exactly if all draws within the attempts are unusable, or one fails before a usable one comes |
| `Laws.RollsIff` | dpe/src/dpe_instance.rs:226-243 | the default handle stays, any other is replaced by such a draw |
| `Laws.FirstChildIff` | dpe/src/commands/update_context_measurement.rs:74-91 | the search over the children bitmap finds exactly the first active context with this parent and type |
| `Laws.GoesIff` | dpe/src/commands/destroy_context.rs:44-70 | what the sweep collects, in terms of ancestry |
| `Laws.RemovedIff` | dpe/src/commands/destroy_context.rs:72-85 | after the sweep, exactly the slots that go are blank, and every other slot keeps everything but the children that go |
| `Laws.RoomIff` | dpe/src/commands/derive_context.rs:116-223 | the counting test of the target locality, told by the contexts there: for a default child none but a default parent that makes way, for another no default one but such a parent |
| `Laws.ExecuteLaw` | dpe/src/commands/mod.rs:309-332 | a command is answered exactly if the response fits and its law holds: which contexts the handles name, which permissions and support there are, which draws and hashes were made, and the whole state afterwards, slot by slot and field by field |
| `Promises.WithoutRoom` | dpe/src/commands/sign.rs:233-255 | without room for the response nothing is answered, but only SignCommand leaves the state as it was |
| `Promises.OwnHandle` | dpe/src/state.rs:121-155 | where the rules on handles hold, an active context is named by its own handle |
| `Promises.AnsweredHandles` | dpe/src/dpe_instance.rs:226-243 | in a valid state with distinct handles, unless two draws collide or a root is added to an unsafe locality, every handle in an answer names, in the state it leaves, the context it was given to |
| `Promises.HandleUsedUp` | dpe/src/dpe_instance.rs:226-243 | where handles were distinct, after an answered command no active context has the handle it was given, unless it is the default one or a child was measured, and then only that child |
| `Promises.ReuseExample` | dpe/src/commands/update_context_measurement.rs:106-119 | that child may: a valid state and a source that says the parent's old handle again |
| `Promises.RotatePromise` | dpe/src/commands/rotate_context.rs:85-140 | in a valid state with distinct handles, a rotation is answered exactly if it is supported, the handle names a context, and either that is to become the default one, is not so yet and is alone in its locality, or a usable draw comes in time; the answered handle then names that context, the old one, if it was not the default one, names none, and nothing else has changed |
| `Promises.DestroyPromise` | dpe/src/commands/destroy_context.rs:30-87 | DestroyContext, whether its response fits or not, leaves live exactly the contexts that are not below the named one and not above it with only dangling contexts between, each with all its fields and its surviving children; it is answered exactly if the handle names a context and the response fits, and changes nothing if the handle names none |
| `Promises.ExportPromise` | dpe/src/commands/derive_context.rs:346-427 | an answered export whose parent is neither retained nor has children removes the parent in the same way |
| `Promises.PermissionsEnforced` | dpe/src/commands/derive_context.rs:254-281 | an answered export comes from an active Normal context that may export, an answered recursive update from one that may be updated so, a child that may issue certificates from a parent that may, and each from a DPE that supports it |
| `Promises.PermissionsRefused` | dpe/src/commands/derive_context.rs:228-281 | a request that lacks support or permission for its flags is refused with the error for it and changes nothing; an answered one lacks none |
| `Promises.AncestorsAllow` | dpe/src/commands/derive_context.rs:475-481 | where permissions narrow, as over every run, what an answered DeriveContext or X.509 CertifyKey needed is allowed by every ancestor |
| `Refusals.RefusalReason` | dpe/src/commands/mod.rs:309-332 | whatever error a command answers, its reason is there: in the request, the state before, the draws, the hash, or the missing room for the response |
| `Instance.Dpe.GenerateNewHandle` | dpe/src/dpe_instance.rs:205-224 | the retry loop computes `Commands.NewHandle` and changes no context |
| `Instance.Dpe.InitializeContext` | dpe/src/commands/initialize_context.rs:58-131 | leaves state and response as `Commands.Initialize` says |
| `Instance.Dpe.RotateContext` | dpe/src/commands/rotate_context.rs:85-140 | leaves state and response as `Commands.Rotate` says; `Laws.ExecuteLaw` and `Promises.RotatePromise` say what that is in fields |
| `Instance.Dpe.CheckCertifyKey` | dpe/src/commands/certify_key.rs:147-166 | finds the context to certify, or the error of lookup or checks, and changes nothing |
| `Instance.Dpe.CertifyKeyCommand` | dpe/src/commands/certify_key.rs:132-211 | leaves state and response as `Commands.CertifyKey` says |
| `Instance.Dpe.SignCommand` | dpe/src/commands/sign.rs:145-255 | leaves state and response as `Commands.Sign` says |
| `Instance.Dpe.UpdateContextMeasurement` | dpe/src/commands/update_context_measurement.rs:53-156 | leaves state and response as `Commands.Update` says |
| `Instance.Dpe.GetDescendants` | dpe/src/state.rs:170-184 | the recursion over children bitmaps ends on a forest and collects exactly the slots whose path to the root passes strictly above them through the given one |
| `Instance.Dpe.CollectRetired` | dpe/src/commands/destroy_context.rs:44-62 | the loop over parents collects exactly the maximal run of retired single-child ancestors |
| `Instance.Dpe.Sweep` | dpe/src/commands/destroy_context.rs:72-85 | the in-place sweep leaves every doomed slot reset and no doomed index in any children set |
| `Instance.Dpe.DestroyContext` | dpe/src/commands/destroy_context.rs:30-87 | removes exactly the doomed contexts, or fails and changes nothing |
| `Instance.Dpe.DeriveContext` | dpe/src/commands/derive_context.rs:228-507 | leaves state and response as `Commands.Derive` says; `Laws.ExecuteLaw` and `Promises.PermissionsRefused` say what that is in fields |
| `Instance.Dpe.Serve` | dpe/src/commands/mod.rs:309-332 | any request, on a well-formed state: the state and response of `Commands.Execute`, which are those of the laws (`Laws.ExecuteLaw`) or a refusal with a reason (`Refusals.RefusalReason`), and a well-formed state again |
| `Measurement.DefaultPlatform.GetCertificateChain` | platform/src/default.rs:86-106 | copies the chunk at the offset, cut at the chain's end; fails exactly from the end on, or if the chunk would not fit, and then copies nothing |
| `Measurement.NoOverflowIff` | platform/src/default.rs:97 | the sums of the chunk loop stay within 32 bits exactly for chains up to one chunk less than 2^32 |
| `Measurement.FeedCertificateChain` | dpe/src/dpe_instance.rs:369-388 | the chunk loop ends and feeds the whole chain, for every chain of up to 2^32 - 2048 bytes |
| `Measurement.ComputeMeasurementHash` | dpe/src/dpe_instance.rs:331-395 | succeeds exactly on a rooted context, and then feeds root to leaf the node bytes, from which every node can be read back, then the internal info and the chain exactly if some node on the path asks for them |
| `Measurement.DestroyKeepsHashInput` | dpe/src/dpe_instance.rs:343-357 | destroying a context leaves the hash input of every survivor as it was |
| `Measurement.NodesRead` | dpe/src/tci.rs:10-16 | from the bytes of a path, type, both registers, locality, SVN and X.509 permission of every node are read back |
| `Measurement.HashInputReads` | dpe/src/dpe_instance.rs:343-357 | so they are from the hash input; behind them lie the internal info and the chain, each exactly if some context of the path uses it |
| `Measurement.EqualInputEqualPaths` | dpe/src/dpe_instance.rs:343-357 | paths of one length whose registers have one size have equal hash input only if they agree in all of these at every node |
| `Der.LengthRoundTrip` | dpe/src/x509.rs:988-1000 | every length below 2^32 is read back from its bytes, whatever follows (X.690, section 8.1.3) |
| `Der.LengthCanonical` | dpe/src/x509.rs:386-400 | whatever the strict reader accepts as a length is the shortest form the writer uses (X.690, section 10.1) |
| `Der.LengthPrefixFree` | dpe/src/x509.rs:988-1000 | equal texts behind lengths have equal lengths |
| `Der.IntegerRoundTrip` | dpe/src/x509.rs:1015-1037 | any non-empty big-endian number is written in minimal non-negative form and read back (X.690, section 8.3) |
| `Der.IntegerCanonical` | dpe/src/x509.rs:413-427 | a number in minimal form is left as it is |
| `Der.IntegerLength` | dpe/src/x509.rs:413-427 | the length of the minimal form is determined by the number |
| `Der.StripSpec` | dpe/src/x509.rs:1024-1034 | stripping drops leading zeros only, and all of them but a last byte |
| `Der.ParseEnc` | dpe/src/x509.rs:1047-1053 | the parser returns the tree that was encoded and what follows it |
| `Der.EncParse` | dpe/src/x509.rs:1047-1053 | whatever parses is the encoding of the tree it parses to, so no two texts parse to one tree |
| `Der.ParseNode` | dpe/src/x509.rs:988-1000 | a structure parses exactly if its body does |
| `Der.ParsePrefix` | dpe/src/x509.rs:988-1000 | elements in front decide nothing: a text parses exactly if what follows them does |
| `Der.WrongSize` | dpe/src/x509.rs:988-1000 | a last structure whose size overruns the text, or leaves one byte behind, makes the text unreadable |
| `ResponseBuffers.ResponseBuffer.WriteAt` | response-buffer/src/lib.rs:66-72 | writes all bytes or none, exactly if they fit; nothing before the view changes |
| `ResponseBuffers.ResponseBuffer.Clear` | response-buffer/src/lib.rs:58-64 | zeroes the view and nothing before it |
| `ResponseBuffers.ResponseBuffer.ReadRange` | response-buffer/src/lib.rs:74-88 | reads the range of the view, exactly if it lies inside |
| `CertTrees.GetIntegerBytesSize` | dpe/src/x509.rs:413-427 | the loop finds the length of the minimal form |
| `CertTrees.NameLayout` | dpe/src/x509.rs:1089-1128 | the sizes claimed for a name are those of its parts |
| `CertTrees.EcPubAlgIdLayout` | dpe/src/x509.rs:468-472 | the size claimed for the key algorithm is that of its encoding |
| `CertTrees.AlgIdLayout` | dpe/src/x509.rs:476-495 | the size claimed for an algorithm identifier is that of its encoding |
| `CertTrees.ValidityLayout` | dpe/src/x509.rs:499-503 | the size claimed for the validity is that of its encoding |
| `CertTrees.KeyInfoLayout` | dpe/src/x509.rs:508-512 | the size claimed for the key info is that of its encoding |
| `CertTrees.SigBitsShortcut` | dpe/src/x509.rs:1255-1276 | for arbitrary scalars, the shortcut for the BIT STRING length is right exactly unless the two integers' sizes sum to 127, 255, 65535 or 16777215 |
| `CertTrees.SigBitsExact` | dpe/src/x509.rs:1255-1276 | for scalars of 32 or 48 bytes the shortcut is right |
| `CertTrees.FwidLayout` | dpe/src/x509.rs:551-555 | the size claimed for an FWID is that of its encoding |
| `CertTrees.RegistersLayout` | dpe/src/x509.rs:568-576 | the sizes claimed for the integrity registers are those of their encoding |
| `CertTrees.TcbInfoLayout` | dpe/src/x509.rs:560-586 | the size claimed for a TCB info is that of its encoding |
| `CertTrees.ExtensionLayout` | dpe/src/x509.rs:590-600 | the size claimed for an extension is that of its encoding |
| `CertTrees.OtherNameLayout` | dpe/src/x509.rs:777-793 | the sizes claimed for an otherName are those of its encoding |
| `CertForms.OtherExtensionsLayout` | dpe/src/x509.rs:661-774 | the sizes claimed for all extensions but the first are those of their encodings |
| `CertForms.ExtensionsLayout` | dpe/src/x509.rs:796-824 | with the real size of the TCB infos, the extensions as written are the encoding of their tree |
| `CertForms.AttributesLayout` | dpe/src/x509.rs:924-955 | the same for the CSR attributes |
| `CertForms.ExtensionsClaim` | dpe/src/x509.rs:1775-1811 | extensions written with different claims differ |
| `CertForms.ExtensionsOff` | dpe/src/x509.rs:1775-1811 | the extensions as written are off from their outermost size by exactly as much as the claim |
| `CertForms.SidLayout` | dpe/src/x509.rs:852-900 | the sizes claimed for a signer identifier are those of its encoding |
| `CertForms.SignerInfoLayout` | dpe/src/x509.rs:841-848 | the size claimed for a signer info is that of its encoding |
| `CertTheorems.SvnWidthIs` | dpe/src/x509.rs:431-434 | how many bytes the INTEGER of an SVN has |
| `CertTheorems.TcbInfoSizeIs` | dpe/src/x509.rs:560-586 | for registers of 32 or 48 bytes the size of a TCB info is a constant plus its SVN's width |
| `CertTheorems.InfosSize` | dpe/src/x509.rs:1520-1528 | the TCB infos of a path take as many times the constant, and the sum of the widths |
| `CertTheorems.HonestIff` | dpe/src/x509.rs:638-653 | the claimed size is right exactly when the path's SVN widths sum to as many times the width of slot 0's SVN |
| `CertTheorems.ChildOfFirstSlot` | dpe/src/context.rs:396-400 | for a child of a root in slot 0, exactly when the two SVNs are equally wide |
| `CertTheorems.RootOutsideFirstSlot` | dpe/src/context.rs:396-400 | even for a context without a parent, slot 0 decides |
| `CertTheorems.TailIs` | dpe/src/x509.rs:1775-1811 | extensions and attributes are the encoding of their trees exactly when the claim is right |
| `CertTheorems.SignedFaithful` | dpe/src/x509.rs:2144-2250 | a certificate or CSR is the encoding of its tree, and a strict parser returns that tree and nothing more, exactly when the SVN widths match |
| `CertTheorems.ReadableIff` | dpe/src/x509.rs:2144-2250 | right claim or wrong, a strict parser reads the document exactly if it reads its extensions or attributes |
| `CertTheorems.WrongClaimUnreadable` | dpe/src/x509.rs:638-653 | a claim that is too large, or one byte too small, makes certificate and CSR unreadable |
| `Mismatch.RunReaches` | dpe/src/commands/derive_context.rs:428-506 | InitializeContext and DeriveContext lead from a new DPE to a root with SVN 0 in slot 0 and a child with SVN 128 |
| `Mismatch.MismatchIsEmitted` | dpe/src/x509.rs:2144-2250 | the certificate of that child is written and signed, every reserved size fitting, is not the encoding of its tree, and is not read by a strict parser |
| `CertTheorems.CmsFaithful` | dpe/src/x509.rs:2325-2411 | a CMS message always parses to its tree, which holds the CSR's bytes as they are |
| `CertTheorems.DestroyKeepsCertificate` | dpe/src/commands/destroy_context.rs:72-85 | destroying another context leaves a survivor's certificate tree as it was, but the claim is computed from an SVN of zero if slot 0 goes |
| `Oids.MultiTcbInfoOid` | dpe/src/x509.rs:238 | stands for 2.23.133.5.4.5 |
| `Oids.UeidOid` | dpe/src/x509.rs:241 | stands for 2.23.133.5.4.4 |
| `Oids.EcaOid` | dpe/src/x509.rs:244 | stands for 2.23.133.5.4.100.12 |
| `Oids.AttestLocOid` | dpe/src/x509.rs:247 | stands for 2.23.133.5.4.100.9 |
| `Oids.SignedDataOid` | dpe/src/x509.rs:269-270 | stands for 1.2.840.113549.1.7.2 |
| `Oids.DataOid` | dpe/src/x509.rs:274 | stands for 1.2.840.113549.1.7.1 |
| `Oids.ExtensionRequestOid` | dpe/src/x509.rs:278-279 | stands for 1.2.840.113549.1.9.14 |
| `Oids.EcdsaSha256Oid` | dpe/src/x509.rs:80 | stands for 1.2.840.10045.4.3.2 |
| `Oids.EcdsaSha384Oid` | dpe/src/x509.rs:87 | stands for 1.2.840.10045.4.3.3 |
| `Oids.Mldsa87Oid` | dpe/src/x509.rs:225 | stands for 2.16.840.1.101.3.4.3.19 |
| `Oids.Sha256Oid` | dpe/src/x509.rs:84 | stands for 2.16.840.1.101.3.4.2.1 |
| `Oids.Sha384Oid` | dpe/src/x509.rs:232 | stands for 2.16.840.1.101.3.4.2.2; ML-DSA-87 goes with it too |
| `Oids.EcPublicKeyOid` | dpe/src/x509.rs:228 | stands for 1.2.840.10045.2.1 |
| `Oids.Prime256Oid` | dpe/src/x509.rs:82 | stands for 1.2.840.10045.3.1.7 |
| `Oids.Secp384Oid` | dpe/src/x509.rs:89 | stands for 1.3.132.0.34 |
| `Oids.PkixOids` | dpe/src/x509.rs:250-265 | stand for 2.5.29.19, .15, .37, .14, .35 and .17 |
| `Oids.NameOids` | dpe/src/x509.rs:234-235 | stand for 2.5.4.3 and 2.5.4.5 |
| `CertContents.TcbRead` | dpe/src/x509.rs:1434-1495 | a reader that goes by the field numbers of a TCB info finds SVN, current digest, locality, type and, if supported, cumulative digest of the context |
| `CertContents.TcbsRead` | dpe/src/x509.rs:1520-1528 | and in the list one such TCB info for each context, in order |
| `CertContents.FindInOthers` | dpe/src/x509.rs:1775-1811 | which extensions there are, found by their identifiers |
| `CertContents.ListTells` | dpe/src/x509.rs:1775-1811 | what the reader finds in the extensions: the TCB infos, UEID, authority flag, the two usage bits, policy, key identifiers and alternative name, and which of them are critical |
| `CertContents.NameRead` | dpe/src/x509.rs:1089-1128 | both attributes of a name are found by their identifiers, with bytes and string type |
| `CertContents.KeyRead` | dpe/src/x509.rs:2041-2056 | curve and both coordinates of the key, or algorithm and bytes, are found |
| `CertContents.SignatureRead` | dpe/src/x509.rs:1255-1296 | the signature's two numbers, or its bytes, are found |
| `CertContents.SignedRead` | dpe/src/x509.rs:2144-2250 | for registers of 32 or 48 bytes, an issuer name that is a DER text, and matching SVN widths, the reader finds in the bytes of a certificate or CSR what it was made from: the contexts on the path, root first, in their fields, names, key, serial number, validity, issuer and extensions; and the signature is that of the signed part as it stands there |
| `CertContents.CmsRead` | dpe/src/x509.rs:2325-2411 | in a CMS message it finds version, algorithms, the signer's identity, the CSR and the signature over it, and in the CSR what it was made from if the widths match |
| `CertWriters.CertWriter.EncodeBytes` | dpe/src/x509.rs:958-968 | lays the bytes over the text at the offset and advances by their number, whether or not they fit |
| `CertWriters.CertWriter.EncodeSizeField` | dpe/src/x509.rs:988-1000 | lays down the shortest length, byte by byte |
| `CertWriters.CertWriter.CheckNotTruncated` | dpe/src/x509.rs:1006-1012 | fails exactly if the text is longer than the buffer |
| `CertWriters.CertWriter.PushBacktrack` | dpe/src/x509.rs:314-320 | reserves the bytes and remembers where, exactly if the stack has room |
| `CertWriters.CertWriter.PopBacktrack` | dpe/src/x509.rs:329-341 | takes the innermost range off the stack and goes to its start, exactly if its width is as expected |
| `CertWriters.CertWriter.BacktrackAndEncodeSize` | dpe/src/x509.rs:364-384 | fills the innermost ranges with the sizes, exactly if each has the width of its range, and stands at the end again |
| `CertWriters.PatchSplit` | dpe/src/x509.rs:373-376 | several sizes are filled in one after the other |
| `CertWriters.FillOne` | dpe/src/x509.rs:364-384 | a reserved size filled in with the body's length completes the structure, exactly for lengths from 256 to 65535 |
| `CertWriters.FillTwo` | dpe/src/x509.rs:2014-2027 | the same for a structure that is the whole content of another |
| `CertWriters.ContentTail` | dpe/src/x509.rs:1024-1034 | the suffix the writer takes, and the zero it may put before it, are the minimal form |
| `CertWriters.CertWriter.EncodeIntegerBytes` | dpe/src/x509.rs:1015-1037 | lays down the minimal form behind its size |
| `CertWriters.CertWriter.EncodeTlv` | dpe/src/x509.rs:1047-1053 | lays down the encoding of a leaf |
| `CertWriters.CertWriter.EncodeRdn` | dpe/src/x509.rs:1089-1128 | lays down the encoding of the name, exactly if it fits |
| `CertWriters.CertWriter.EncodeEcPubAlgId` | dpe/src/x509.rs:1145-1154 | lays down the encoding of the key algorithm |
| `CertWriters.CertWriter.EncodeSigAlgId` | dpe/src/x509.rs:1163-1171 | lays down the encoding of the signature algorithm |
| `CertWriters.CertWriter.EncodeHashAlgId` | dpe/src/x509.rs:1181-1189 | lays down the encoding of the hash algorithm |
| `CertWriters.CertWriter.EncodeValidity` | dpe/src/x509.rs:1193-1203 | lays down the encoding of the validity |
| `CertWriters.CertWriter.EncodePubKeyInfo` | dpe/src/x509.rs:2041-2056 | lays down the encoding of the key info for each kind of key |
| `CertWriters.CertWriter.EncodeSignatureBitString` | dpe/src/x509.rs:1280-1296 | lays down algorithm and signature as they end a certificate |
| `CertWriters.CertWriter.EncodeSignatureOctetString` | dpe/src/x509.rs:1300-1316 | lays down algorithm and signature as they end a signer info |
| `CertWriters.CertWriter.EncodeVersion` | dpe/src/x509.rs:1398-1406 | lays down the encoding of the version |
| `CertWriters.CertWriter.EncodeFwid` | dpe/src/x509.rs:1408-1420 | lays down the encoding of the FWID |
| `CertWriters.CertWriter.EncodeTcbInfo` | dpe/src/x509.rs:1434-1495 | lays down the encoding of the TCB info; `CertContents.TcbRead` says which fields of the context are found in it |
| `CertWriters.CertWriter.EncodeTcbInfos` | dpe/src/x509.rs:1520-1528 | lays down one TCB info per node of the path, root first |
| `CertWriters.CertWriter.EncodeMultiTcbInfo` | dpe/src/x509.rs:1500-1531 | lays down the TCB infos behind the claimed sizes |
| `CertWriters.CertWriter.EncodeExtensionHeader` | dpe/src/x509.rs:604-627 | lays down the header for a content of the given size |
| `CertWriters.CertWriter.EncodeUeid` | dpe/src/x509.rs:1536-1554 | lays down the encoding of the extension |
| `CertWriters.CertWriter.EncodeBasicConstraints` | dpe/src/x509.rs:1559-1581 | lays down the encoding of the extension |
| `CertWriters.CertWriter.EncodeKeyUsage` | dpe/src/x509.rs:1586-1614 | lays down the encoding of the extension |
| `CertWriters.CertWriter.EncodeExtendedKeyUsage` | dpe/src/x509.rs:1624-1648 | lays down the encoding of the extension |
| `CertWriters.CertWriter.EncodeOtherName` | dpe/src/x509.rs:1651-1682 | lays down the encoding of the name |
| `CertWriters.CertWriter.EncodeSubjectAltName` | dpe/src/x509.rs:1701-1720 | lays down the encoding of the extension, if there is one |
| `CertWriters.CertWriter.EncodeAuthorityKeyIdentifier` | dpe/src/x509.rs:1727-1751 | lays down the encoding of the extension, in certificates only |
| `CertWriters.CertWriter.EncodeSubjectKeyIdentifier` | dpe/src/x509.rs:1753-1773 | lays down the encoding of the extension, in CA certificates only |
| `CertWriters.CertWriter.EncodeExtensions` | dpe/src/x509.rs:1775-1811 | lays down the extensions behind the claimed sizes |
| `CertWriters.CertWriter.EncodeAttributes` | dpe/src/x509.rs:1839-1866 | lays down the attributes behind the claimed sizes |
| `CertWriters.CertWriter.EncodePayload` | dpe/src/x509.rs:2086-2136 | succeeds exactly if the size can be filled in and everything fits, and then has laid down the signed payload (TBSCertificate, and dpe/src/x509.rs:2256-2284 for a CSR) |
| `CertWriters.CertWriter.EncodeSignedPayload` | dpe/src/x509.rs:2183-2241 | signs exactly the payload as the buffer holds it and lays down payload, algorithm and signature in a SEQUENCE |
| `CertWriters.CertWriter.EncodeSigned` | dpe/src/x509.rs:2144-2170 | succeeds exactly if the certificate (or CSR, dpe/src/x509.rs:2295-2315) exists and fits |
| `CertWriters.CertWriter.EncodeSignerInfo` | dpe/src/x509.rs:1878-1903 | lays down the signer info |
| `CertWriters.CertWriter.EncodeSignerIdentifier` | dpe/src/x509.rs:1911-1973 | lays down the identifier of either kind |
| `CertWriters.CertWriter.EncodeEncapsulatedContentInfo` | dpe/src/x509.rs:1991-2039 | lays down the CSR in its three layers and remembers the range that holds it |
| `CertWriters.CertWriter.EncodeSignedDataBody` | dpe/src/x509.rs:2363-2391 | signs exactly the CSR as the buffer holds it and lays down the signed data |
| `CertWriters.CertWriter.EncodeCms` | dpe/src/x509.rs:2325-2411 | from an empty stack, succeeds exactly if the message exists and fits; with ranges left open it always fails |
| `Generate.Delivered` | dpe/src/x509.rs:958-1012 | what success leaves: the bytes at the start of the view, an empty stack, no saved offset, the offset at the end; what failure means |
| `Generate.GenerateCertificate` | dpe/src/x509.rs:2626-2663 | success depends on the document and the room for it alone; on success the view holds the certificate, which parses to its tree exactly when the SVN widths match and then tells what went into it; nothing before the view changes |
| `Generate.GenerateCms` | dpe/src/x509.rs:2664-2687 | the same for a CMS message, which always parses to its tree, and tells who signed it and which CSR; eight sizes are open at once |
| `KeyCertificates.GenerateDocument` | dpe/src/commands/certify_key.rs:214-247 | certificate or CMS message by format, exactly if it exists and fits behind the header |
| `KeyCertificates.CertifyKeyInto` | dpe/src/commands/certify_key.rs:193-211 | on success header and document lie side by side in one buffer, the header naming the rolled handle and the document's size; on failure no handle was rolled and the header's room is untouched |
| `KeyCertificates.DocumentTells` | dpe/src/commands/certify_key.rs:193-247 | the document answered to a handle tells, root first, of the contexts from the root down to the one that the handle names, and of the subject's key, name and serial number, if the widths match |

## Left out

- Cryptography: hashing, key derivation and signing are functions that may fail, the random source is an arbitrary sequence of draws that may fail, so nothing is claimed about secrecy or strength.
- The signing callback is a function of the signed bytes and the key selector; a callback whose answers depend on earlier calls or on the buffer's capacity is not covered.
- Integer widths: sizes and offsets are unbounded; they wrap only for texts of 4 GiB, far beyond any buffer.
- Instance.Dpe.GetDescendants: requires a forest; on a cyclic array the recursion of the source has no bound, and the commands never leave one.
- Instance.Dpe.CollectRetired: requires a forest, like the command it is part of.
- Instance.Dpe.DestroyContext: requires a forest; on a cyclic array the walk over retired parents need not end.
- Instance.Dpe.Serve: requires a well-formed state, which a new DPE has and every command keeps.
- Instance.Dpe.CertifyKeyCommand: what creating the certificate came to is a parameter; `KeyCertificates.CertifyKeyInto` composes the two.
- Instance.Dpe.SignCommand: the outcome of signing is a parameter.
- Instance.Dpe.DeriveContext: the outcome of the exported certificate is a parameter, and a forest is required, which every command keeps.
- KeyCertificates.CertifyKeyInto: key derivation and platform calls succeed, and the header's bytes are a function of handle and size.
- Measurement.DefaultPlatform.GetCertificateChain: the sum of offset and size must not wrap; what happens when it does depends on how the program was compiled.
- Measurement.FeedCertificateChain: chains up to one chunk less than 2^32, which is exactly where that sum cannot wrap.
- Measurement.ComputeMeasurementHash: failures of the hasher and of the platform are not modelled, and the serialized internal info is a parameter.
- CertWriters.CertWriter.EncodeMultiTcbInfo: the errors of the path iterator cannot occur once the node list was built, so those branches, like the one for an empty list, are not written down.
- CertWriters.CertWriter.EncodePubKeyInfo: all algorithms are compiled in, so the branch for a mismatched one is not reachable.
- CertWriters.CertWriter.EncodeSigned: stands for the two public encoders of certificate and CSR, which differ in the payload only; likewise `EncodePayload` for their two payload encoders.
- Children bitmaps are sets of indices inside a context; `Bitmap` proves the word operations to be the set operations.
- A context is a value: the source copies, changes and stores whole contexts, and so does the model; aliasing between contexts does not arise.
- The slice buffer and the offset wrapper are one class with a base, which is zero for the slice; a chunked read is one read.
- Responses are values; headers, byte layout and the parsing of commands are not modelled, only whether the response fits.
- Internal error branches behind a check that already excludes them, such as an index out of bounds after a successful lookup, are not written down.
- The conversion of a document's size to 32 bits cannot fail, since every reserved size is below 65536, so its error branch is not written down.
- Which error the validator reports when several apply: the code documents no priority.
- Semantic conformance of nested CMS fields: the subject key identifier puts an OCTET STRING inside a primitive [0], and the model writes what the code writes.
- Creation of a DPE with automatic initialization, certificate chain and profile queries, key derivation around certificates, control-flow integrity checks, constant-time comparison and zeroization: easy members or no functional effect.
- The certificate size bound computed at build time, tools, simulator and test programs.

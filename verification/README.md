# A verified model of infra-central's provision phases and pin scripts

infra-central's provision Lambda and its pin scripts move state that cannot be replaced through
stores that share no transaction: SSM parameters, Secrets Manager, OpenBao, hilt's and sprue's
records, Postgres, and git branches. What they promise is therefore about the order of their
writes, and about what still holds when a run stops between any two of them. This project models
each store as plain state, each phase as a program of calls that may fail or never be made, and
proves the promises over whole histories of runs.

`dafny verify dfyconfig.toml` checks everything.

## How it is built

Every remote call takes the environment's next answer from a script: the call is served, refused
without effect, or never made because the run stops there. A statement for all scripts is a
statement about every failure and every place to stop. Each phase is a specification function on
values; a class beside it runs the same phase call by call on fields that change in place, with the
source's loops, and each of its methods is proved to do what the function says. The lemmas are about
the functions, for one run and for histories of runs.

| files | part of the system |
|---|---|
| `Outcomes` | how a call and a run end |
| `ApplianceWorld`, `ApplianceToken`, `ApplianceVault`, `ApplianceReconcile`, `ApplianceHistory`, `ApplianceNested`, `ApplianceStage` | unseal tokens and transit keys of regional appliances |
| `KeyCustody`, `KeyStores`, `EnsureRace` | keys moving from SSM to Secrets Manager under overlapping seed runs |
| `Onboard`, `OnboardFacts`, `OnboardHistory`, `OnboardServices`, `PiriRecord` | admitting an appliance |
| `ProofIssuer`, `ProofStore` | hilt's delegation to an appliance's Ingot |
| `Seed`, `SeedFacts`, `SeedRuns`, `SeedNeeds`, `SeedStage` | the seed phase |
| `RegionRows`, `RegionRetirement` | retiring a region's Ingot identity |
| `DbInit`, `ResetApps`, `ResetStage`, `HiltSecrets` | ensuring and dropping databases, and resetting the apps |
| `BumpBranches`, `BumpRefresh` | bump branches racing with publishes and merges |
| `Pins` | reading and setting image pins, and promoting them |
| `Amount`, `Wallet` | token amounts, key encodings and addresses |

The model assumes of the environment: a call that returns an error had no effect, and a run may stop
between any two calls; one `DeleteParameters` call is atomic, and so is a database transaction; SSM
paths are hierarchical, so that a path is under a prefix when the prefix ends at a slash; a token may
lapse at any time and never comes back, OpenBao never hands out an accessor twice, and an unwrapped
mint reply carries its accessor; OpenBao answers a lookup or a revocation with an
unknown-accessor error only where the accessor is unknown to it; hilt names a region in every
provider row it has, and its add of an absent provider stores the row and its nodes together; rotated
keys never repeat; Postgres keeps the role of a database that it owns; operator phases on one region do not overlap, while any number
of seed runs may overlap in `KeyCustody` and `EnsureRace`, and of refresh runs in `BumpBranches`.

## Where the code does less than it says

Each of these is proved with the input that shows it and the exact condition under which the promise
holds.

- Region labels that extend one another across a slash, which no check in the repository excludes
  (OpenBao may refuse such a key name of its own accord): retiring `a` deletes the parameters of `a/b`
  and with them the record of a live token, with no error and no stopped run
  (`ApplianceNested.NestedLabelsLoseAToken`). Tokens are accounted for over every history exactly
  when no label does so (`ApplianceNested.AccountedExactlyWhenFlat`).
- A delegation by a rotated key can be stamped as the current key's without any rotation while the
  stamp was missing: a region retirement deletes ten parameters at a time, and one that stops may
  have taken the stamp and left the delegation (`ProofStore.StoppedRetirementMayTakeTheStamp`,
  `ProofIssuer.RotationWhileStampedIsNotEnough`). Some stop does that exactly where the region has
  more than ten parameters (`ProofStore.TornApartExactlyWhenLarge`);
  `ProofIssuer.SignedByCurrentKeyExactlyWhen` is the exact condition for what one run returns, and
  `ProofIssuer.StepKeeps` gives the exact steps that lose it.
- A seed run that stops after minting a replacement key and before publishing it leaves a record that
  no later run corrects (`SeedRuns.StoppedReplacementDisagrees`,
  `SeedRuns.StoppedReplacementIsNeverCorrected`). `SeedRuns.CompletedRunAgreesExactlyWhen` is the
  exact condition.
- `+`, `.` and `+.` are accepted as the amount nought (`Amount.LoneSignsAreZero`), and of the texts
  without a digit exactly these (`Amount.DigitlessExactlyWhen`). An amount's text parses exactly when
  the amount is not negative (`Amount.FormatRoundTrips`).
- The walk over hilt's secrets fails, of its own accord, over a stored path that ends in a slash and
  over nothing else (`ResetApps.WalkFacts`). No check in the repository excludes such a path; OpenBao
  may refuse to store one.
- A stored delegation that does not decode is never reissued: every onboard run of its region fails
  until a retirement takes it (`ProofIssuer.UnreadableUntilRetired`). Short of an interruption a run
  comes through exactly where the stored delegation decodes or is gone, and one that must be issued
  can be (`ProofIssuer.ComesThroughExactlyWhen`), so that a retirement repairs the region
  (`ProofIssuer.RetirementRepairs`).
- A reset recreates a database under the role of its name, whatever role owned it
  (`ResetApps.OwnerKeptExactlyWhen`).
- A reset finds out that a stored password is not hex only after the drop
  (`ResetApps.NonHexFailsAfterTheDrop`), and of its own accord declines over a database exactly then
  (`ResetApps.ResetOneDeclinesExactlyWhen`). So running the phase again does not always finish the
  job: it does, after any number of stopped runs, exactly where every app's stored password is there
  and hex and no tenant secret's path ends in a slash (`ResetApps.RerunFinishesExactlyWhen`).
- Where hilt has two provider rows for one region, a retirement takes one
  (`RegionRows.RetiresExactlyWhenOneProvider`).
- A pin with a blank after its closing quote is read by promotions and refreshes but never edited
  (`Pins.BlankAfterPinIsNotEdited`), and any pin that can be edited becomes such a one by a blank
  (`Pins.BlankAppended`). A service pinned once is edited exactly when nothing follows the quote
  (`Pins.OnePinIsEditedExactlyWhen`), and `Pins.PromotionSucceedsExactlyWhen` is the exact condition
  for a whole promotion.
- Two Piri DIDs whose tails end in the same segment after a slash (`PiriRecord.TailsMayAgree`) read
  back as one (`PiriRecord.ReadBackExactlyWhen`), and a region that has both on record may lose one of
  them as a storage node (`OnboardHistory.CollidingPiriLosesANode`). The recorded Piris are hilt's
  nodes over every history exactly when no two of them are taken for each other
  (`OnboardHistory.ContainedExactlyWhenApart`). Piri DIDs are did:keys, whose tails hold no slash, but
  no check in the repository refuses one.

## Model

| member | source | states |
|---|---|---|
| ApplianceHistory.LiveTokensAccounted | cmd/provision/appliancetoken.go:191-277 | Over any history of token and vault runs, every call free to fail, every run to stop, tokens to lapse: each live token of a region is the recorded one, one a returned error named, or one a stopped run left; errors and stopped runs each answer for at most one, so live tokens never exceed one more than those |
| ApplianceHistory.TokenPhaseKeeps | cmd/provision/appliancetoken.go:191-247 | One token run adds to the tokens off the record nothing when it succeeds, only the token its error names when it fails, and at most one when it stops; it adds none to any other region |
| ApplianceHistory.MintWrappedKeeps | internal/vaultinit/appliancetoken.go:74-129 | A mint whose reply came in the clear is refused and its token revoked; the token survives unrecorded only as the accessor the error names, or after a stop |
| ApplianceHistory.RecordAccessorKeeps | cmd/provision/appliancetoken.go:265-277 | A minted token whose accessor cannot be recorded is revoked, and survives only as the accessor the error names, or after a stop |
| ApplianceHistory.PlanTokenEffect | cmd/provision/appliancetoken.go:99-144 | Planning changes nothing; it plans a mint only where no recorded token is live, and a reissue only of the recorded token |
| ApplianceHistory.RetireKeeps | cmd/provision/vault.go:159-190 | A retirement stopped anywhere leaves every region in order, so that the key stands while a role, a policy, a parameter or a record of the region is left; it strands no token of any region; one that comes through removed that key and no other |
| ApplianceHistory.MissingKeyMeansCleared | cmd/provision/vault.go:159-190 | Over any history, a region without its transit key has no token role, no policy, no parameter under its prefix and so no recorded token |
| ApplianceHistory.RerunFinishesRetirement | cmd/provision/vault.go:159-190 | After any history, a vault run that has the region on the retired list and comes through leaves nothing of it; with lists that agree with the keys, only an interruption keeps it from coming through |
| ApplianceHistory.RemoveTransitKeyKeeps | internal/vaultinit/appliance.go:118-139 | The policy goes before the key, and a stop in between keeps the order |
| ApplianceHistory.DeletePrefixKeeps | internal/ssmstore/ssmstore.go:264-294 | Deleting a prefix in batches of ten, stopped anywhere, touches no other region of flat labels and strands no token |
| ApplianceHistory.EnterKeeps | cmd/provision/appliancetoken.go:41-75 | Every step of a history, of whatever kind, keeps the ledger of tokens balanced |
| ApplianceReconcile.ReconcileExact | cmd/provision/vault.go:114-147 | Reconciliation comes through, short of an interruption, exactly when the two lists are disjoint and name every appliance key; a refusal changes nothing; a success leaves precisely the active regions' keys, each with its policy, nothing of the removed regions, and every other key, policy, role and parameter as it was |
| ApplianceReconcile.RetireEffect | cmd/provision/vault.go:159-190 | A retirement that comes through leaves the region without role, parameters, policy and key, and the token that was on its record dead, and changes nothing of any other region's; one that does not was interrupted, or there was no key to delete |
| ApplianceReconcile.RetirementCutsOffFirst | cmd/provision/vault.go:151-190 | However a retirement ends, once it has destroyed a role, a parameter, a policy or a key, the token on the region's record is dead or there was none: half-finished, it has already cut the node off |
| ApplianceReconcile.EnsureKeysEffect | internal/vaultinit/appliance.go:79-111 | After it every active region has its key and its own policy; keys that were there keep their state |
| ApplianceReconcile.DeletePrefixEffect | internal/ssmstore/ssmstore.go:264-294 | A deletion that comes through has removed exactly the parameters under the prefix, whatever the pages and their order |
| ApplianceReconcile.RetiredAmongMembers | internal/vaultinit/appliance.go:38-73 | The keys planned for removal are exactly the existing ones that are retired and not active |
| ApplianceReconcile.RegionsOfMembers | internal/vaultinit/appliance.go:143-171 | The regions read off the key list are exactly those whose key has the appliance prefix |
| ApplianceNested.NestedLabelsLoseAToken | cmd/provision/vault.go:180-182 | For every two labels of which one extends the other across a slash, three runs in which every call is served end with a live token that is on no record and that no error named |
| ApplianceNested.AccountedExactlyWhenFlat | cmd/provision/vault.go:159-190 | Tokens are accounted for over every history on a set of labels exactly when no label extends another across a slash |
| ApplianceStage.Stage.TokenPhase | cmd/provision/appliancetoken.go:41-75 | The phase, call by call on stores that change in place, does what its specification says; whatever flat labels are in use, a region gains no token off the record when it comes through or is about another region, at most the one its error names when it fails, and at most one when it stops |
| ApplianceStage.Stage.MintToken | cmd/provision/appliancetoken.go:191-247 | Role, mint, record, and the revocation of the replaced token, in that order, refine the specification |
| ApplianceStage.Stage.PlanToken | cmd/provision/appliancetoken.go:99-144 | The plan from the key, the record and the lookup of the token refines the specification |
| ApplianceStage.Stage.MintWrapped | internal/vaultinit/appliancetoken.go:74-129 | Minting wrapped, with a reply in the clear revoked, refines the specification |
| ApplianceStage.Stage.RecordAccessor | cmd/provision/appliancetoken.go:265-277 | Recording, with a token revoked that cannot be recorded, refines the specification |
| ApplianceStage.Stage.EnsureTokenRole | internal/vaultinit/appliancetoken.go:42-63 | A role needs an address range, and is written anew each time |
| ApplianceStage.Stage.TokenLive | internal/vaultinit/appliancetoken.go:140-150 | A token reported as not live is not, one reported as live was when looked up, and every error but an unknown accessor is returned and names it |
| ApplianceStage.Stage.Revoke | internal/vaultinit/appliancetoken.go:159-165 | Where it comes through no live token remains behind the accessor, and every error but an unknown accessor is returned and names it |
| ApplianceStage.Stage.IsUnknownAccessor | internal/vaultinit/appliancetoken.go:177-193 | An answer says the accessor is unknown exactly when it is a 404 or one of its messages says so; an error that is no answer never does |
| ApplianceStage.Stage.Reconcile | cmd/provision/vault.go:114-147 | List, plan, ensure, and retire in a loop: short of an interruption it comes through exactly when the lists agree with the keys that are there, a refusal has changed nothing, and a success left what ReconcileExact says |
| ApplianceStage.Stage.Retire | cmd/provision/vault.go:159-190 | The ordered deletions on two stores: nothing is destroyed before the recorded token is dead, and a retirement that comes through leaves nothing of the region and all of the rest |
| ApplianceStage.Stage.PlanKeys | internal/vaultinit/appliance.go:38-73 | The loops decline exactly when a region is on both lists or a key on neither, and otherwise give the plan |
| ApplianceStage.Stage.AppliancesIn | internal/vaultinit/appliance.go:143-171 | The loop collects the regions in the order their keys are listed |
| ApplianceStage.Stage.EnsureKeys | internal/vaultinit/appliance.go:79-111 | The loop over regions refines the specification |
| ApplianceStage.Stage.RemoveTransitKey | internal/vaultinit/appliance.go:118-139 | Policy, deletion flag and key, in that order |
| ApplianceStage.Stage.DeletePrefix | internal/ssmstore/ssmstore.go:264-294 | The paging loop and the loop over batches refine the specification |
| KeyCustody.KeyNeverLostOrChanged | cmd/provision/keys.go:57-118 | Any number of overlapping seed runs, each stoppable at any call: a key's first value is its value for ever; its SSM copy disappears only once the secret holds the same value, and parameters of other names stay; every run that comes through has that value; at most one reports it created; none finds the stores differing; a public record that is the key's stays so, and there is one once any run has gone on from publishing |
| KeyCustody.DiffersExactlyWhenInconsistent | cmd/provision/keys.go:68-76 | The error that the stores differ can come up exactly when they differed to begin with |
| KeyCustody.StepKeeps | cmd/provision/keys.go:57-143 | Every call of every run keeps what all the others have learned |
| KeyStores.Stores.EnsureKey | cmd/provision/keys.go:57-105 | While others act between any two calls: what ensureKey returns is the stored secret and the key's first value, it reports created only for a value it minted, moved only for one it copied, and never that the stores differ |
| KeyStores.Stores.Create | internal/secretstore/secretstore.go:104-120 | An existing secret wins and is returned; created only when there was none |
| KeyStores.Stores.DeleteCopies | internal/ssmstore/ssmstore.go:200-221 | The loops over names and batches, while others act, delete copies of the key only, leave parameters of other names as they were, and leave no copy when they come through |
| EnsureRace.OneWinner | internal/ssmstore/ssmstore.go:82-120 | Any interleaving of concurrent calls on one name: a value there at the start is never replaced, all that return have the stored value, and one reports created exactly when there was none |
| EnsureRace.PlayKeeps | internal/secretstore/secretstore.go:84-120 | A stored value stays through any interleaving of reads and conditional writes |
| OnboardFacts.PlanIsHonest | internal/onboard/onboard.go:283-371 | A plan with a blocker writes nothing; any other run makes the announced writes in their order, as many as it gets to, and all of them when it comes through |
| OnboardFacts.PlanAnnouncesThePromise | internal/onboard/onboard.go:190-256 | The plan's actions announce those writes, in that order, but for the weights where they need no change |
| OnboardFacts.AdmittedHasNoPlan | internal/onboard/onboard.go:190-256 | Without a delegation in the request, a plan has no action and no blocker exactly when the appliance is admitted with these weights in all four places |
| OnboardFacts.OnboardingConverges | internal/onboard/onboard.go:283-371 | After a successful run a fresh read, in whatever order the record is then listed, and a plan have no actions and no blockers, and the stored delegation grants every command and is stamped with hilt's key; short of an interruption a run comes through exactly when the region has an unseal token on record, the plan no blocker, and the delegation can be issued; without the first two it writes nothing |
| OnboardFacts.AdmitIngotEffect | internal/onboard/onboard.go:318-362 | hilt is told before the record is written: a changed record is one whose every Piri is already among hilt's nodes, however the run ends |
| OnboardFacts.HiltStepEffect | internal/onboard/onboard.go:327-353 | The hilt step leaves hilt as it was, or with the region's whole node set, and comes through only when hilt has the Ingot for this region with a policy |
| OnboardHistory.RecordedPirisAreNodes | internal/onboard/onboard.go:260-265 | From any stage of which it holds, with Piris that are not taken for each other, and over any history of onboard runs stopped anywhere, dry or confirmed, rotations, retirements and resets: while hilt has the region's Ingot with a policy, the recorded Piris are contained in its nodes; and where the nodes begin as at most one more, they stay so while nothing forgets a Piri |
| OnboardHistory.UnroutedRowsAreRepaired | internal/onboard/onboard.go:239-245 | It holds of every stage where no provider row has a routing policy, whatever rows and records there are: rows that were registered before hilt took nodes are repaired, and nothing recorded is missing from them afterwards |
| OnboardHistory.ContainedExactlyWhenApart | cmd/provision/pirirecord.go:41-82 | For any set of Piris: the recorded ones are contained in hilt's nodes after every history about them, from every stage where they are so, exactly when no two of them are taken for each other |
| OnboardHistory.CollidingPiriLosesANode | internal/onboard/onboard.go:239-245 | For any two Piris that are taken for each other: one run with every call served, on a row without a policy and a record of both, leaves one of them recorded and not a node |
| OnboardHistory.DidsDiffer | cmd/provision/onboard.go:180-182 | Two regions have the same Ingot DID exactly when they are the same region |
| OnboardServices.Services.Apply | internal/onboard/onboard.go:283-371 | Apply, call by call on the services' state, does what its specification says and performs the same writes |
| OnboardServices.Services.Read | internal/onboard/onboard.go:150-182 | The four reads refine the specification and change nothing |
| OnboardServices.Services.ReadRecord | cmd/provision/pirirecord.go:41-56 | The record is read through a listing of parameters, keyed by last segment, and may read back as less than it holds |
| OnboardServices.Services.IssueStep | internal/onboard/onboard.go:364-371 | The delegation is issued by the issuer itself, on the region's two parameters |
| OnboardServices.Services.Onboard | cmd/provision/onboard.go:37-143 | The phase, call by call: a confirmed run that comes through has admitted the appliance in all four places and stored a current delegation; one that is not confirmed changes nothing; and however it ends, hilt was told of a Piri before central recorded it |
| OnboardFacts.DryRunChangesNothing | cmd/provision/onboard.go:67-88 | A run that is not confirmed performs no write and changes nothing, and comes through only for a region with an unseal token on record |
| PiriRecord.RecordedExactlyWhenTailsDiffer | cmd/provision/pirirecord.go:41-65 | Whatever the order of the listing, the record reads back as exactly the DIDs recorded for the region when, and only when, their tails end in different segments |
| PiriRecord.ReadBackExactlyWhen | internal/ssmstore/ssmstore.go:231-255 | A record reads back as some of what it holds, whatever the order of the listing, and as all of it exactly when the tails end in different segments |
| PiriRecord.ReadBackAlwaysExactlyWhen | internal/ssmstore/ssmstore.go:231-255 | A recorded DID is read back in every order of the listing exactly when no other's tail ends in the same segment |
| PiriRecord.TailsMayAgree | cmd/provision/pirirecord.go:74-82 | did:key:a/x and did:key:b/x are both accepted and are taken for each other |
| PiriRecord.SlashlessTailsDiffer | cmd/provision/pirirecord.go:67-82 | Tails without slashes are such |
| PiriRecord.SamePathSameDid | cmd/provision/pirirecord.go:74-82 | No two DIDs are recorded under one parameter |
| PiriRecord.BelowSeparates | cmd/provision/pirirecord.go:31-38 | A region's record is not below another region's, for labels without slashes |
| PiriRecord.ListPublic | internal/ssmstore/ssmstore.go:231-255 | The loops over pages and parameters keep each value under its name's last segment; a page whose call fails leaves no result at all, and nothing else does |
| ProofIssuer.IssueFacts | cmd/provision/onboard.go:242-305 | A run that succeeds returns the stored delegation, granting every command and stamped with the current key; it keeps the one that was there exactly when that grants every command and is stamped by the current key or not at all, and otherwise has issued one new one; a run that fails or stops leaves the old one or that new one |
| ProofIssuer.SignedByCurrentKeyExactlyWhen | cmd/provision/onboard.go:242-305 | What a successful run returns is signed by hilt's current key, but for a delegation of an earlier key that a run keeps |
| ProofIssuer.NamesAudienceExactlyWhen | cmd/provision/onboard.go:242-305 | It names the DID asked for, but for a delegation to another DID that a run keeps |
| ProofIssuer.AtMostAnotherReissue | cmd/provision/onboard.go:242-305 | However a run ends, the next that comes through issues at most one more delegation, and further ones return that and issue nothing |
| ProofIssuer.StepKeeps | cmd/provision/onboard.go:270-293 | Of all steps, exactly two lose the truth of the stamp: a rotation while it is missing, and the loss of the stamp of an earlier key's delegation |
| ProofIssuer.OnboardReturnsCurrentProof | cmd/provision/onboard.go:242-305 | From any state and over any history, a successful run returns the stored delegation with every current command; signed by the current key where the stamp told the truth to begin with and none of those two steps occurred |
| ProofIssuer.RotationWhileStampedIsNotEnough | cmd/provision/onboard.go:283-289 | A history with no rotation while the stamp is missing that ends in a successful run returning the old key's delegation, stamped as the new key's |
| ProofIssuer.RetirementRearmsTheIssuer | cmd/provision/retire.go:21-24 | After a DID change and a retire-region run, whatever came before, a successful run returns a delegation to the new DID |
| ProofIssuer.UnreadableUntilRetired | cmd/provision/onboard.go:269-272 | A stored delegation that does not decode: through any history without a retirement it stays, none is issued in its place, and every onboard run fails |
| ProofIssuer.ComesThroughExactlyWhen | cmd/provision/onboard.go:242-305 | Short of an interruption a run comes through exactly where the stored delegation decodes or is gone, and one that must be issued has an audience and commands |
| ProofIssuer.RetirementRepairs | cmd/provision/retire.go:21-24 | Whatever was stored: once a retirement has come through, and after any history from there, a run comes through short of an interruption |
| ProofIssuer.MissingNothing | internal/keygen/proofs.go:167-185 | No command is missing exactly when the container's grants include all of them |
| ProofStore.Store.IssueProof | cmd/provision/onboard.go:242-305 | The issuer, call by call on the stored parameters, does what its specification says |
| ProofStore.Store.MissingCommands | internal/keygen/proofs.go:167-185 | The loops over grants and commands list the missing commands in order, none exactly when the container decodes and grants them all; what does not decode is an error and nothing else is |
| ProofStore.Store.RetireProof | cmd/provision/retire.go:166-169 | Both parameters go in one call |
| ProofStore.StoppedRetirementMayTakeTheStamp | internal/ssmstore/ssmstore.go:264-294 | A stopped deletion of a region with more than ten parameters may have taken the stamp and left both the delegation and the accessor that onboarding asks for |
| ProofStore.TornApartExactlyWhenLarge | internal/ssmstore/ssmstore.go:264-294 | Some stop of a region's deletion takes the stamp and leaves the delegation exactly where the region has more than ten parameters |
| SeedRuns.SeedHistoryAgrees | cmd/provision/seed.go:127-372 | From any stage whose records and proofs are those of its keys, be these in Secrets Manager, still to be moved from SSM, or in both, and over any history of seed runs and rotations in which every run that mints a replacement comes through: a completed run leaves each DID, address and multibase copy as the stored key derives it and each startup proof signed by its issuer's stored key |
| SeedRuns.SeedHistoryFromNothing | cmd/provision/seed.go:127-372 | A stage that holds nothing yet is such a stage |
| SeedRuns.CompletedRunAgreesExactlyWhen | cmd/provision/seed.go:127-372 | A completed run leaves all of that in agreement exactly when, as it began, no stored key had a record it does not derive and no proof was another key's |
| SeedRuns.FurtherRunChangesNothing | cmd/provision/seed.go:127-372 | After a completed run a further one creates nothing and changes no stored value, however it ends |
| SeedNeeds.SeedComesThroughExactlyWhen | cmd/provision/seed.go:127-197 | Short of an interruption a seed run comes through exactly where keys stored twice agree, each key still to be moved agrees with its public record, and the stored keys parse, provided that generated ones do |
| SeedNeeds.EnsureKeyEnds | cmd/provision/keys.go:57-143 | Under these conditions only an interruption makes ensureKey fail, and what it returns parses |
| SeedRuns.StoppedReplacementDisagrees | cmd/provision/seed.go:238-251 | A run that stops right after minting a replacement leaves the earlier key's record |
| SeedRuns.StoppedReplacementIsNeverCorrected | cmd/provision/seed.go:238-251 | A completed run leaves a disagreeing record as it is |
| SeedFacts.SeedKeyFacts | cmd/provision/seed.go:201-267 | One key: a stored or copied value is kept, a minted one only where there was none; the record is replaced only by the run that minted; an interrupted seed leaves one of the states in between |
| SeedFacts.SeedKeysFacts | cmd/provision/seed.go:329-372 | The keys one after the other: each is moved on its own, and exactly the minted ones are reported created, in order |
| SeedFacts.SeedProofsFacts | cmd/provision/seed.go:281-327 | A proof is issued when its issuer was minted in this run or there is none, and otherwise left alone; exactly the issued ones are reported |
| SeedFacts.EnsureKeyFacts | cmd/provision/keys.go:57-143 | A copy is moved only when it matches its public record and any secret that is there |
| SeedStage.Stores.Seed | cmd/provision/seed.go:127-197 | The phase, loop by loop on stores that change in place: when it comes through, every record, proof and multibase copy is the stored keys' own exactly when none that was not had been there as it began |
| SeedStage.Stores.SeedKeys | cmd/provision/seed.go:201-267 | The loop over services refines the specification |
| SeedStage.Stores.SeedProofs | cmd/provision/seed.go:281-327 | The loop over proofs refines the specification |
| SeedStage.Stores.EnsureKey | cmd/provision/keys.go:57-105 | ensureKey in one run refines the specification |
| SeedStage.Stores.Move | cmd/provision/keys.go:84-98 | A copy alone is checked against the public record and only then stored |
| SeedStage.Stores.SeedOne | cmd/provision/seed.go:201-267 | One key on stores that change in place: one that is there is never replaced, whatever happens; when it comes through, record and multibase copy are the key's own, unless a record that is not was there beside the secret |
| SeedStage.Stores.Copy | internal/secretstore/secretstore.go:126-155 | A multibase copy that is right already is not written again |
| SeedStage.Stores.DeleteMoved | cmd/provision/keys.go:110-118 | The loop over moved keys, each probed for and its copies deleted in one call where they are there |
| RegionRows.StatementsNeverRefused | cmd/provision/retire.go:268-274 | In their order the three statements never meet the RESTRICT constraint, each leaves the tables referential, and together they remove exactly what names the provider or one of its buckets |
| RegionRows.OrderMattersExactlyForTheProvider | cmd/provision/retire.go:259-290 | In any order of the three statements, the schema lets them through exactly when the provider has no bucket or its buckets go before it; and in every order that it lets through they leave the same tables |
| RegionRows.WithoutLeavesTheRest | cmd/provision/retire.go:300-334 | No bucket of that provider is left, no delegation naming a removed DID, and every other row of every table is |
| RegionRows.DeleteRegionRowsFacts | cmd/provision/retire.go:300-334 | One transaction: all of it or nothing; the counts are the rows removed; only the environment, or a provider row that went away, keeps it from coming through |
| RegionRows.CountsAreThePlans | cmd/provision/retire.go:106-145 | On unchanged data a run removes as many rows of each table as the plan announced |
| RegionRows.EmptyExactlyWhenRetired | cmd/provision/retire.go:82-84 | A plan is empty exactly when no provider row and neither parameter is left |
| RegionRows.RerunFinishesRetirement | cmd/provision/retire.go:152-174 | After any number of stopped runs, a run that comes through has left what one uninterrupted run would have |
| RegionRows.RetiresExactlyWhenOneProvider | cmd/provision/retire.go:200-210 | A run that comes through retires the region exactly when hilt has at most one provider row for it |
| RegionRows.PhaseRetires | cmd/provision/retire.go:36-65 | The phase: not confirmed, it changes nothing; confirmed and come through, it has retired the region exactly when hilt had at most one provider row for it |
| RegionRetirement.Stage.Retire | cmd/provision/retire.go:152-174 | The rows in their transaction, and then the parameters, and nothing at all where the plan is empty |
| RegionRetirement.Stage.RetirePhase | cmd/provision/retire.go:36-65 | The phase, query by query and statement by statement: a dry run changes nothing, and a confirmed run that comes through retires the region exactly when hilt had at most one provider row for it |
| RegionRetirement.Stage.DeleteRegionRows | cmd/provision/retire.go:300-334 | The transaction takes effect at the commit and not before |
| RegionRetirement.Stage.ReadRegionDids | cmd/provision/retire.go:200-227 | A provider row of the region and all its buckets, or nothing |
| RegionRetirement.Stage.CollectBuckets | cmd/provision/retire.go:212-226 | The loop over result rows collects every bucket once |
| RegionRetirement.Stage.PlanRetire | cmd/provision/retire.go:106-145 | The plan refines the specification and changes nothing |
| RegionRetirement.Stage.DeleteParameters | internal/ssmstore/ssmstore.go:200-221 | The parameters that are there go in one call; none there is no error |
| ResetApps.StoppedResetIsSafe | cmd/provision/resetapps.go:126-182 | A reset stopped anywhere adds at most one missing database, touches no other database and no other role, openbao's among them, and keeps every secret that a row of hilt's refers to and every secret outside the tenants' root |
| ResetApps.CompletedResetIsFresh | cmd/provision/resetapps.go:136-182 | A reset that comes through leaves the four databases there, empty, each owned by the role of its name with the stored password, and no tenant secret, and reports just that |
| ResetApps.ResetOneFacts | cmd/provision/resetapps.go:139-160 | One database is as it was, gone, or new, however its reset ends, and ready when it comes through |
| ResetApps.OwnerKeptExactlyWhen | internal/dbinit/dbinit.go:40-45 | A completed reset keeps a database's owner exactly when that was the role of its name |
| ResetApps.NonHexFailsAfterTheDrop | cmd/provision/resetapps.go:143-156 | With every call served, a stored password that is not hex fails the run with the database dropped |
| ResetApps.ResetComesThroughExactlyWhen | cmd/provision/resetapps.go:139-160 | Short of an interruption a reset comes through exactly where every app's stored password is there and hex and no tenant secret's path ends in a slash |
| ResetApps.RerunFinishesExactlyWhen | cmd/provision/resetapps.go:126-182 | After any number of runs that stopped or failed anywhere, running the phase again finishes the job, short of an interruption, exactly where that was so to begin with |
| ResetApps.ResetOneDeclinesExactlyWhen | cmd/provision/resetapps.go:139-160 | Of its own accord the reset of one database declines exactly where its stored password is not hex, and the database is then gone |
| DbInit.EnsureDeclinesExactlyWhen | internal/dbinit/dbinit.go:97-130 | Short of an interruption a call fails exactly when some password in the list, an owner's or a login role's, is not hex, or some setting is not an allowed one or no duration; and it has then done nothing for any database |
| DbInit.DropFacts | internal/dbinit/dbinit.go:205-232 | Drop removes that database and nothing else, keeps its role, and says whether there was one |
| DbInit.EnsureOneFacts | internal/dbinit/dbinit.go:132-180 | A database that is there is left alone, one that is not is created under its owner; the owner gets the password, every login role logs in with its own and has its settings as defaults; and no other database and no other role changes, however it ends |
| ResetApps.DestroyFacts | cmd/provision/resetapps.go:162-175 | The destruction never meets its own refusal; it destroys what is under the root, nothing else, and counts it |
| ResetApps.WalkFacts | internal/vaultinit/hiltsecrets.go:25-58 | The walk as it is made, one list call for every folder, each of which may fail: where it comes through it returned every path under the folder, each once; of its own accord it fails over a path that ends in a slash and over nothing else |
| ResetStage.Stage.ApplyReset | cmd/provision/resetapps.go:136-182 | The loops over databases and secrets: stopped anywhere, at most one more database is missing and every secret that a row of hilt's refers to is there; come through, all is as CompletedResetIsFresh says |
| ResetStage.Stage.Ensure | internal/dbinit/dbinit.go:97-109 | The loop that checks and the loop that ensures: it declines exactly when some input is bad, and has then done nothing |
| ResetStage.Stage.Validate | internal/dbinit/dbinit.go:111-130 | The loops over login roles and settings accept exactly the inputs whose passwords are hex and whose settings are allowed durations |
| ResetStage.Stage.EnsureRoles | internal/dbinit/dbinit.go:164-177 | The loop over login roles and, inside it, over their settings refines the specification |
| ResetStage.Stage.EnsureLoginRole | internal/dbinit/dbinit.go:234-259 | The role is created if absent and given its password every time |
| ResetStage.Stage.Drop | internal/dbinit/dbinit.go:205-232 | Owner, membership and drop, in that order: no other database and no role changes, and the answer says whether there was one |
| ResetStage.Stage.Walk | internal/vaultinit/hiltsecrets.go:25-58 | The loop over a folder's keys, with a walk of its own for each folder among them, refines the specification |
| ResetStage.Stage.ListSecrets | internal/vaultinit/hiltsecrets.go:15-23 | A listing that comes through has every stored path under the root, each once |
| HiltSecrets.Walk | internal/vaultinit/hiltsecrets.go:25-58 | What one uninterrupted walk returns: every stored path under the folder exactly once and nothing else, a path that is leaf and folder at once included; it is refused only for a path that ends in a slash, and terminates |
| HiltSecrets.FolderKeyCovers | internal/vaultinit/hiltsecrets.go:49-55 | A folder in a listing stands for exactly the paths that go on from it |
| HiltSecrets.BehindOne | internal/vaultinit/hiltsecrets.go:45-57 | Behind a leaf's key is that one path, behind a folder's all that is under it |
| HiltSecrets.Mount.Destroy | internal/vaultinit/hiltsecrets.go:65-73 | It refuses a path outside the root and deletes no other |
| HiltSecrets.Mount.DestroyAll | cmd/provision/resetapps.go:162-175 | Destroying the walk's paths empties the root, counts them, is never refused, and leaves everything outside the root, however it ends |
| BumpBranches.MergeReplacesThePublishedPin | scripts/refresh-bump-prs.sh:84-169 | In every interleaving of publishes, merges, other commits and refresh runs on stale fetches: a merge adds to main its tip with one pin replaced, by the service's last published digest, and the pin it replaces is the one main had in the commit that publish was built from |
| BumpBranches.PublishedDigestIsNotLost | scripts/refresh-bump-prs.sh:108-154 | A digest that a branch asks for is asked for still, or a newer publish, a merge, or a run whose fetched main already pins it took it away |
| BumpBranches.StepKeeps | scripts/refresh-bump-prs.sh:76-170 | Every step keeps every branch built over the pin its publish was built over, and every run's copies true to the commits they name |
| BumpBranches.PushKeeps | scripts/refresh-bump-prs.sh:139-152 | A leased push leaves the repository sound whatever the run has fetched and however stale it is |
| BumpBranches.PushDoes | scripts/refresh-bump-prs.sh:108-154 | A push the remote takes deletes a superseded branch or puts the same digest on the fetched main; one it does not take does nothing |
| BumpBranches.FollowsOn | scripts/refresh-bump-prs.sh:134-151 | A branch carries the digest and the origin of the last publish through every rebuild |
| BumpRefresh.Remote.RefreshBranch | scripts/refresh-bump-prs.sh:84-169 | The two-attempt loop, with others acting between any two operations: a run that reports a branch rebuilt or closed had exactly one push taken, and that push did what it reports; any other had none |
| BumpRefresh.Remote.Push | scripts/refresh-bump-prs.sh:115-152 | The remote takes a push exactly while the branch is the commit the run has seen |
| BumpRefresh.Remote.Attempt | scripts/refresh-bump-prs.sh:115-152 | A decision made before others acted is still right when the push is taken |
| BumpRefresh.Remote.Refetch | scripts/refresh-bump-prs.sh:166-167 | Only the branch is fetched again, not main |
| Pins.SettingReadsBack | scripts/set-pin.sh:67-95 | On a committed file with one pin for the service: set-pin says whether the file changed, changes only that line, the new digest reads back, and what is read for every other service stays |
| Pins.SettingTwiceAndBack | scripts/set-pin.sh:67-95 | Setting twice is setting once, the last digest counts, and setting the earlier one restores the file |
| Pins.SetPinSucceedsExactlyWhen | scripts/set-pin.sh:47-95 | set-pin succeeds on any committed file exactly when service and digest are well formed, some line fits the edit, and at most one such line is at another digest; it reports a change exactly when one is |
| Pins.BlankAfterPinIsNotEdited | scripts/set-pin.sh:67-79 | A service pinned on one line, with something after the closing quote: pin_at prints that digest, and set-pin fails and leaves the file, whatever digest it is to set |
| Pins.OnePinIsEditedExactlyWhen | scripts/set-pin.sh:67-95 | A service pinned on one line is set to the digest exactly when nothing follows the closing quote, and otherwise stays at its own |
| Pins.BlankAppended | scripts/set-pin.sh:67-69 | A blank appended to a line that can be edited: it pins what it pinned, and can no longer be edited |
| Pins.NothingFitsNothingChanges | scripts/set-pin.sh:67-79 | Where no line fits the edit, set-pin fails and leaves the file |
| Pins.ReplaceReads | scripts/set-pin.sh:67-69 | An edited line still parses the same, holds the new digest, and can be set back |
| Pins.ReplacingCounts | scripts/set-pin.sh:81-91 | What git counts for lines replaced in place: one added and one deleted for each |
| Pins.PromotionCopiesThePins | scripts/promote.sh:254-325 | Where the source can be read and the target edited for every service, a promotion comes through, all the target's pins are then the source's, and no other line has changed |
| Pins.PromotionSucceedsExactlyWhen | scripts/promote.sh:254-325 | For any two files: a promotion comes through exactly when every service is pinned on both sides and every pin that differs is a single one in the source and can be set in the target |
| Pins.MovingIsRight | scripts/promote.sh:254-263 | The moving list holds each service whose pins differ, once, with the source's digest |
| Pins.OnePinReads | scripts/promote.sh:94-97 | What pin_at prints for a service pinned once is that digest |
| Pins.SetPinInPlace | scripts/set-pin.sh:67-95 | The edit in place, the read-back and the count of changed lines do what the specification says |
| Pins.EditInPlace | scripts/set-pin.sh:67-69 | The line-by-line edit of the file in place |
| Pins.CollectMoves | scripts/promote.sh:254-263 | The loop over services collects the moving list, or stops at a service that is not pinned on both |
| Pins.PromoteInPlace | scripts/promote.sh:317-325 | The fold of set-pin over the moving list, staging after each, does what the specification says |
| Amount.ParseIsExact | internal/fund/amount.go:18-42 | A text parses as an amount exactly when it is written as one, spaces around it aside, and the value is the decimal times ten to the eighteenth with no rounding |
| Amount.FormatRoundTrips | internal/fund/amount.go:47-61 | An amount comes back from its text exactly when it is not negative |
| Amount.FormatIsTheCanonicalText | internal/fund/amount.go:47-61 | Formatting gives each value its one canonical text: no sign, no needless zero at either end, a point only before a fraction |
| Amount.NegativeDoesNotParse | internal/fund/amount.go:47-61 | The text of a negative amount is never accepted |
| Amount.LoneSignsAreZero | internal/fund/amount.go:18-42 | A lone plus, a lone point, and the two together are accepted as nought |
| Amount.DigitlessExactlyWhen | internal/fund/amount.go:18-42 | Of the texts without a digit those three are accepted, spaces around them aside, and no other |
| Wallet.KeysRoundTrip | internal/keygen/wallet.go:60-130 | Every valid key survives each of its three encodings, and its address with it |
| Wallet.EncodingsInjective | internal/keygen/wallet.go:113-130 | No two keys are stored alike in any of the encodings |
| Wallet.HexRoundTrips | internal/keygen/wallet.go:113-115 | Hex, section 8 of RFC 4648: any bytes come back |
| Wallet.Base64RoundTrips | internal/keygen/wallet.go:126-130 | Base64, section 4 of RFC 4648: any bytes come back, whatever their number |
| Wallet.ToChecksumAddress | internal/keygen/wallet.go:133-154 | The loop builds the checksummed address, which in lower case is the plain hex address, for any hash function |
| Wallet.ChecksumIsStable | internal/keygen/wallet.go:133-154 | Checksumming is injective for any hash function, and the checksummed text reads back as the same address |

## Left out

- Reading the OpenBao root token, hilt's secret_id, waiting for OpenBao to unseal, configuration, hostnames, request validation and dispatch: plumbing around the calls that are modelled.
- Cryptography, key generation and the validity of keys: uninterpreted functions, predicates, and values the environment chooses.
- The text of policies, DSNs, SQL and error messages, beyond whether an error names a token accessor.
- Sorting of listed DIDs and node lists: node sets are sets.
- set-pin's choice of a stage's file and its usage errors, beyond an unknown service and a malformed digest.
- Connection strings, stored database passwords and the compatibility server's three login roles as the seed phase derives them.
- Overlapping onboard, mint or retire runs on one region, and calls that fail after taking effect: the code relies on one operator at a time.
- Opening, commenting on, closing and arming pull requests, the text of promotion messages, and the force-push of the promotion branch.
- internal/fund beyond amounts, Terraform, Grafana and the remaining operator scripts.
- LiveTokensAccounted: needs labels that do not extend one another across a slash; AccountedExactlyWhenFlat proves that nothing less will do.
- OnboardingConverges: for a Piri that is not taken for another of its region's record, because one that is may be left out of what a fresh read sees (ReadBackAlwaysExactlyWhen).
- RecordedPirisAreNodes: a region's Ingot DID follows from the stage's one hostname suffix, which does not change within a history; and it starts from stages where nothing recorded is missing from a routed region's nodes, because no run takes a Piri off the record; and of Piris that are not taken for each other, because ContainedExactlyWhenApart proves that nothing less will do.
- OnboardReturnsCurrentProof: signed by the current key only while the stamp tells the truth and no step loosens it, because a stopped retirement may take the stamp and leave the delegation.
- IssueProof: create-if-absent is a read and a write without a competitor, since onboard runs on a region do not overlap; EnsureRace covers the race.
- SeedHistoryAgrees: only where every run that mints a replacement comes through, because a stopped one leaves a record that is never corrected; and from stages whose records and proofs are their keys' own, because nothing else ever corrects one (CompletedRunAgreesExactlyWhen).
- SeedStage.Stores.Seed: passwords, databases and connection strings are one call, which may fail; DbInit models what Ensure does to the databases.
- SeedStage.Stores.DeleteMoved: a key's copies are probed for and deleted together; KeyStores.Stores.DeleteCopies has the names and batches one by one.
- SeedRun: runs do not overlap; KeyCustody has runs that do.
- MergeReplacesThePublishedPin: a pin that main moves away and back between publish and merge counts as unmoved, as it does for the script, which compares the two ends.
- PublishedDigestIsNotLost: a branch that a person deletes or pushes to by hand is outside the model.
- SetPin: git's diff is the fewest lines that tell two files apart, which git's own heuristics may exceed on files far longer than these.
- KeysRoundTrip: the wallet's JSON is read in the form that PiriWalletHex writes and in no other.
- ParseIsExact: a text is a sequence of characters; bytes that are no valid UTF-8 are not modelled.

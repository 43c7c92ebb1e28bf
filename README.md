# AMBiT configuration generator, modelled in Dafny

This project models the configuration generator of AMBiT, an atomic-structure code. It also
models the two value types the generator works with. Read it alongside the C++ source.

The generator does four things:

- It reads the electron and hole excitation depths from the user input, with optional per-step
  basis limits.
- It reads the leading configurations. Each must have the electron number of the first one, and
  the vacuum is added when that number is zero.
- It closes the list under electron moves, hole moves, pair creation and pair annihilation,
  once per excitation step, and then adds the extra configurations.
- It splits the non-relativistic configurations into relativistic ones. It filters those by
  parity and maximum projection, then erases the ones without projections or CSFs. CSFs are the
  configuration state functions of the angular-momentum library.

The Dafny modules follow the program's types:

| module | what it holds |
|---|---|
| `Orbitals` | Shells `n l` (NonRelInfo), orbitals `n kappa` (OrbitalInfo), parity and Symmetry. |
| `Occupations` | The `std::map` occupation maps of Configuration. They are sorted, zero-free sequences of entries with a lexicographic order. |
| `SortedLists` | The SortedList class that ConfigList and RelativisticConfigList derive from: add, append, erase, `unique()`. Also filter and concatenation helpers. |
| `RelConfigs` | RelativisticConfiguration, and the Cartesian-product split of a shell map into relativistic maps. |
| `NonRelConfigs` | NonRelConfiguration: AddSingleParticle and RemoveSingleParticle with their success flags, copy and assignment, GenerateRelativisticConfigs through the recursive SplitNonRelInfo, and ConfigList built from a relativistic list. |
| `Excitations` | GenerateExcitations, as one method per source loop, with the change results checked (see Findings). Each loop is proved equal to a list function. The moves and annihilations as written are kept beside them and proved equal within capacity. |
| `Generator` | The ConfigGenerator class with its public methods, and the list functions that specify them. |
| `HamiltonianTypes` | SingleOrbitalID and NonRelID. |

Configurations are values, because the source always copies one before changing it. The lists
are objects whose `items` the methods change. Each method's `ensures` ties its new state to a
function of its old state, and lemmas state what the source promises about those functions.

The things the generator cannot compute itself are parameters:

- the user input (`UserInput`);
- the particle and hole orbital sets;
- the angular-momentum library (`Angular`: maximum projections, projection counts,
  GetProjections, NumCSFs).

Reads and writes of the angular-data directory are recorded as events (`AngularDataStore`).

## Model

| member | source | states |
|---|---|---|
| Orbitals.KappaRoundTrip | Atom/HamiltonianTypes.h:14-15 | The symmetry of an orbital's kappa gives that kappa back, so a SingleOrbitalID built from kappa keeps it. |
| Orbitals.RelativisticInfosOfShell | Configuration/NonRelConfiguration.h:54-57 | A shell splits into the orbitals j = l + 1/2 and, for l > 0, j = l - 1/2. Both belong to the shell and hold 2l + 2 and 2l electrons, in orbital order. |
| Occupations.IncIsMap | Configuration/NonRelConfiguration.h:18 | Changing one occupancy keeps the map sorted and free of zero entries. |
| Occupations.IncOccupancy | Configuration/NonRelConfiguration.h:18 | Changing the occupancy of one key by d changes that key by d and no other key. |
| Occupations.OccupationMapExtensionality | Configuration/NonRelConfiguration.h:18 | Two occupation maps that agree on every key are equal. |
| Occupations.ShellMapOrder | Configuration/NonRelConfiguration.h:18 | The lexicographic order on non-relativistic occupation maps is a strict total order. |
| Occupations.OrbitalMapOrder | Configuration/ConfigGenerator.cpp:206-207 | The lexicographic order on relativistic occupation maps is a strict total order. |
| Occupations.WithinCapacityByOccupancy | Configuration/NonRelConfiguration.h:14-16 | A map is within capacity exactly when no key has an absolute occupancy above 2(2l+1). |
| SortedLists.SortUniqueCorrect | Configuration/ConfigGenerator.cpp:349 | `unique()` leaves a strictly sorted list. It holds only elements of the old list, an equivalent of every old element, and is no longer than before. |
| SortedLists.SortUniqueIdempotent | Configuration/ConfigGenerator.cpp:192 | `unique()` on a list that is already sorted and unique changes nothing. |
| SortedLists.FilterMembership | Configuration/ConfigGenerator.cpp:368-375 | Erasing the elements that fail a test keeps exactly the old elements that pass it, and never grows the list. |
| SortedLists.FilterSubsequence | Configuration/ConfigGenerator.cpp:419-428 | Erasing the elements that fail a test leaves a subsequence: the survivors keep their relative order. |
| SortedLists.FilterTwice | Configuration/ConfigGenerator.cpp:419-446 | Two erasing passes leave what one pass with both tests would leave. |
| SortedLists.FilterFilterSpec | Configuration/ConfigGenerator.cpp:419-446 | Two erasing passes keep exactly the elements that pass both tests, in their original order. |
| SortedLists.FilterKeepsOrder | Configuration/ConfigGenerator.cpp:383-390 | Erasing elements keeps a sorted list sorted: the survivors keep their relative order. |
| SortedLists.EraseUnless | Configuration/ConfigGenerator.cpp:132-143 | The iterator loop that erases failing elements leaves the filtered list. |
| SortedLists.SortedList.Add | Configuration/ConfigGenerator.cpp:280 | `add` appends one element. |
| SortedLists.SortedList.Append | Configuration/ConfigGenerator.cpp:111 | `merge` and `append` add a whole list at the end. |
| SortedLists.SortedList.KeepOnly | Configuration/ConfigGenerator.cpp:237-244 | The erase loop leaves exactly the elements that pass the test, in order. |
| SortedLists.SortedList.Unique | Configuration/ConfigGenerator.cpp:192 | `unique()` replaces the items by their sorted, de-duplicated list. |
| RelConfigs.ExpansionsCollapse | Configuration/NonRelConfiguration.h:54-57 | Every relativistic map of the split collapses back to the configuration that was split. |
| RelConfigs.ExpansionIsMap | Configuration/NonRelConfiguration.h:54-57 | Every split is an occupation map: its orbitals are in order and none is empty. |
| RelConfigs.ExpansionWithinCapacity | Configuration/NonRelConfiguration.h:14-16 | A split of a configuration within capacity keeps every orbital within 2\|kappa\|. |
| RelConfigs.ExpansionConserves | Configuration/NonRelConfiguration.h:42-45 | A split has the electron number and the parity of the configuration it came from. |
| RelConfigs.ProductMembers | Configuration/NonRelConfiguration.h:54-57 | The split is a Cartesian product: its members are exactly one choice for the current shell followed by one split of the rest. |
| NonRelConfigs.ConfigOrder | Configuration/NonRelConfiguration.h:60 | The order of a ConfigList, on occupation maps only, is a strict order. |
| NonRelConfigs.ConfigEquivalence | Configuration/NonRelConfiguration.h:60 | Two configurations are unordered relative to each other exactly when they are equal. |
| NonRelConfigs.CopyAndAssignPreserveMap | Configuration/NonRelConfiguration.h:22-31 | A copy compares equal to its source and starts with a null relconfiglist. An assignment copies the map and keeps the target's relconfiglist. |
| NonRelConfigs.ChangeOccupancySpec | Configuration/NonRelConfiguration.h:34-37 | A change succeeds exactly when the new absolute occupancy fits the shell. It then changes that shell only and the electron number by the same amount. A failure leaves the configuration as it was. Both keep capacity. |
| NonRelConfigs.AddSingleParticleSpec | Configuration/NonRelConfiguration.h:36-37 | AddSingleParticle reports success exactly when the shell has room. It then adds one electron to that shell only, and otherwise changes nothing. |
| NonRelConfigs.RemoveSingleParticleSpec | Configuration/NonRelConfiguration.h:34-35 | RemoveSingleParticle reports success exactly when the shell has room for one more hole. It then removes one electron from that shell only, and otherwise changes nothing. |
| NonRelConfigs.SplitNonRelInfo | Configuration/NonRelConfiguration.h:54-57 | The recursion appends the prefix followed by every split of the remaining shells, in the loop order `Choices` assumes (see Left out), and adds only at the end of the map. |
| NonRelConfigs.GenerateRelativisticConfigs | Configuration/NonRelConfiguration.h:42-45 | Fills relconfiglist with the split of the configuration, returns that same list, and leaves the occupation map alone. |
| NonRelConfigs.RelConfigListSpec | Configuration/NonRelConfiguration.h:51 | Every member of relconfiglist is an occupation map that collapses to the configuration, with its electron number and parity, and within capacity when the configuration is. |
| NonRelConfigs.ConfigListFromRelativistic | Configuration/NonRelConfiguration.h:69-70 | Builds the de-duplicated list of the configurations of a relativistic list. |
| NonRelConfigs.ConfigListFromRelativisticSpec | Configuration/NonRelConfiguration.h:69-70 | That list is sorted and unique, and holds exactly the configurations the relativistic ones collapse to. |
| NonRelConfigs.UniqueConfigs | Configuration/NonRelConfiguration.h:60 | `unique()` on a ConfigList is sorted, drawn from the list, and keeps every occupation map. |
| Excitations.TwoStepsSpec | Configuration/ConfigGenerator.cpp:277-280 | Two checked changes on different shells yield a candidate exactly when both stay within capacity. The candidate differs from its parent on those two shells only, by the two amounts. |
| Excitations.MoveResultConserves | Configuration/ConfigGenerator.cpp:270-296 | An electron or hole move never targets its own shell. Otherwise it gives at most one candidate, exactly when both shells stay within capacity. That candidate has one particle taken out of the source shell (an electron, or a hole when the shell holds holes) and put into the target, every other shell unchanged, and keeps the parent's electron number and capacity. |
| Excitations.ParticleMovesConserve | Configuration/ConfigGenerator.cpp:264-299 | Every electron and hole move of a configuration conserves its electron number and capacity. |
| Excitations.HolesCreatedSpec | Configuration/ConfigGenerator.cpp:307-312 | Each hole made after the extra electron removes exactly one electron. |
| Excitations.PairCreationsConserve | Configuration/ConfigGenerator.cpp:301-314 | Pair creation adds one electron and one hole, so the electron number is conserved. |
| Excitations.AnnihilationResultConserves | Configuration/ConfigGenerator.cpp:325-338 | A checked pair annihilation conserves the electron number and capacity. |
| Excitations.AnnihilationsConserve | Configuration/ConfigGenerator.cpp:316-344 | Every pair annihilation of a configuration conserves its electron number and capacity. |
| Excitations.AllCandidatesConserve | Configuration/ConfigGenerator.cpp:260-347 | Every candidate of a list comes from one of its configurations and conserves that one's electron number and capacity. |
| Excitations.ExcitationStepOrigin | Configuration/ConfigGenerator.cpp:256-350 | Every configuration after a step was there before, or conserves one that was. |
| Excitations.ExcitationStepSpec | Configuration/ConfigGenerator.cpp:256-350 | A step leaves a sorted list without repeats. It still holds every configuration it started with, and keeps an electron number and capacity that all of those share. |
| Excitations.AddShellMoves | Configuration/ConfigGenerator.cpp:273-295 | The inner move loops, corrected to add a move only when both changes succeed, append exactly the moves of one shell, in target order. |
| Excitations.AddParticleMoves | Configuration/ConfigGenerator.cpp:266-299 | The shell loop appends the corrected moves of every shell in map order. |
| Excitations.AddHolesCreated | Configuration/ConfigGenerator.cpp:307-312 | The inner pair-creation loop appends one candidate per hole target that has room. |
| Excitations.AddPairCreations | Configuration/ConfigGenerator.cpp:302-314 | The pair-creation loops append the creations in electron-target order. |
| Excitations.AddAnnihilation | Configuration/ConfigGenerator.cpp:325-338 | The corrected pair annihilation: it appends its candidate only when both changes succeeded. The source appends it whatever they return (Findings, first row). |
| Excitations.AddAnnihilationsWith | Configuration/ConfigGenerator.cpp:323-341 | The inner annihilation loop appends the corrected annihilations with every later shell. |
| Excitations.AddAnnihilations | Configuration/ConfigGenerator.cpp:317-344 | The annihilation loops append every corrected annihilation over pairs of shells. |
| Excitations.AddCandidates | Configuration/ConfigGenerator.cpp:264-344 | One configuration's loops append its moves, then its creations, then its annihilations, all in the corrected form. |
| Excitations.GenerateExcitations | Configuration/ConfigGenerator.cpp:256-350 | The list becomes one excitation step of the list it held on entry, built from the corrected moves and annihilations. Within capacity these equal the source's. |
| Excitations.ExcitationStepAdds | Configuration/ConfigGenerator.cpp:256-350 | Every candidate of every configuration the step started with is in its result, up to its occupation map. |
| Excitations.MoveResultAsWrittenAgrees | Configuration/ConfigGenerator.cpp:277-293 | For a configuration within capacity, the move as written equals the checked move. |
| Excitations.AnnihilationAsWrittenAgrees | Configuration/ConfigGenerator.cpp:325-338 | For a configuration within capacity, the annihilation as written equals the checked one. |
| Excitations.OverfilledShellMove | Configuration/ConfigGenerator.cpp:277-280 | An overfilled 1s shell: the move to 2s as written gains an electron, and the checked move yields nothing. |
| Excitations.OverfilledShellAnnihilation | Configuration/ConfigGenerator.cpp:327-330 | A 1s shell with four holes: the annihilation as written loses an electron, and the checked one yields nothing. |
| Generator.ParseDepth | Configuration/ConfigGenerator.cpp:46-63 | A parsed depth is never negative when the default is not. |
| Generator.ParseDepthSpec | Configuration/ConfigGenerator.cpp:39-83 | The depth is read exactly when there is no input (giving the default), one non-negative value, or an even count. Basis limits apply exactly for pairs, with one step per pair. |
| Generator.FirstOff | Configuration/ConfigGenerator.cpp:90-102 | The index of the first configuration with the wrong electron number: all before it match, and it does not. |
| Generator.FirstOffAt | Configuration/ConfigGenerator.cpp:178-188 | A loop that stops at the first mismatch, or at the end, stops at FirstOff. |
| Generator.ShellsOfSpec | Configuration/ConfigGenerator.cpp:124-125 | The target set is sorted and holds exactly the shells of the given orbitals. |
| Generator.StepTargetsSpec | Configuration/ConfigGenerator.cpp:121-171 | A step's targets are the sorted shells of the orbitals. There are none at or past the depth, and with pairs only shells with l < limits.size() and n <= limits[l]. |
| Generator.KeepsTransitive | Configuration/ConfigGenerator.cpp:116-174 | Keeping every configuration, the electron number and capacity carries over two steps. |
| Generator.KeepsFrom | Configuration/ConfigGenerator.cpp:116-174 | Along a chain of steps from any index, each keeping the one before, the last keeps the one at that index. |
| Generator.ExciteKeepsLater | Configuration/ConfigGenerator.cpp:116-174 | A later excitation step still holds every configuration an earlier step left. |
| Generator.ExciteCloses | Configuration/ConfigGenerator.cpp:116-174 | Every candidate made at step i from a configuration of that step's list is in the list after any later step. |
| Generator.ExciteSpec | Configuration/ConfigGenerator.cpp:116-174 | After one or more steps the list is sorted and unique. After any number of steps it still holds every starting configuration, with a shared electron number and capacity. |
| Generator.NonRelConfigurationsFailure | Configuration/ConfigGenerator.cpp:46-188 | GenerateNonRelConfigurations fails exactly when a depth is malformed, or when a leading or extra configuration has an electron number other than the first leading one's. |
| Generator.WithExtraConfigurations | Configuration/ConfigGenerator.cpp:176-192 | Adding the extra configurations and calling `unique()` keeps every excited and every extra configuration, and adds nothing else. |
| Generator.NonRelConfigurationsSuccess | Configuration/ConfigGenerator.cpp:33-194 | On success the list is sorted and unique. It holds every leading configuration (the vacuum included) and every extra one, all with the leading electron number, and all within capacity when the inputs are. |
| Generator.NonRelConfigurationsClosed | Configuration/ConfigGenerator.cpp:33-194 | On success every candidate made at any step of the plan from a configuration of that step's list is in the result. With no steps the result is exactly the leading and extra configurations, sorted and de-duplicated. |
| Generator.LeadingListShared | Configuration/ConfigGenerator.cpp:86-109 | The leading list, vacuum included, has the leading electron number throughout, and stays within capacity when the input does. |
| Generator.FewestProjectionsFirstOrder | Configuration/ConfigGenerator.cpp:206 | Fewest projections first, then configuration order, is a strict total order. |
| Generator.ExpansionsSpec | Configuration/ConfigGenerator.cpp:213-227 | The appended relativistic configurations are exactly the splits of the selected configurations, each with its configuration's electron number and parity. |
| Generator.RelativisticListSpec | Configuration/ConfigGenerator.cpp:196-209 | The unfiltered list is sorted fewest projections first without repeats. It holds every split of every configuration and nothing else. |
| Generator.ProjectedRelListSpec | Configuration/ConfigGenerator.cpp:352-391 | GenerateProjections only erases. Survivors were in the list, have projections and at least one CSF, and keep their relative order. |
| Generator.SymmetryRelListSpec | Configuration/ConfigGenerator.cpp:211-228 | Only configurations of the target parity with twice-max-projection >= twoJ are split, so every result has the target parity. |
| Generator.SymmetryConfigurationsSpec | Configuration/ConfigGenerator.cpp:230-254 | The parity-filtering overload fails exactly when generation does. Otherwise every result has the target parity and the leading electron number. |
| Generator.RelativisticListHas | Configuration/ConfigGenerator.cpp:196-209 | A split of a configuration whose occupation map the list holds is in the list's relativistic list. |
| Generator.SymmetryBaseListHas | Configuration/ConfigGenerator.cpp:230-254 | One split of one configuration of the target parity is in the symmetry's relativistic list. |
| Generator.SymmetryBaseListComplete | Configuration/ConfigGenerator.cpp:230-254 | Every split of every configuration of the target parity is in the symmetry's relativistic list. |
| Generator.SymmetryConfigurationsComplete | Configuration/ConfigGenerator.cpp:230-254 | Nothing of the target parity is lost. Without projections every split of every generated configuration of that parity is returned. With projections such a split is returned exactly when it has projections and a CSF under the list's library key. |
| Generator.FinalPassAgreement | Configuration/ConfigGenerator.cpp:437-450 | The final pass as written fails exactly at the first configuration whose relconfiglist is null. Otherwise it does what the corrected pass does, entry by entry. |
| Generator.NullRelConfigListDereference | Configuration/ConfigGenerator.cpp:411-439 | An odd 2p configuration under an even symmetry has its relconfiglist cleared at 413 and then dereferenced at 439. |
| Generator.ProjectedConfigSpec | Configuration/ConfigGenerator.cpp:393-451 | The occupation map is never changed, and the wrong parity leaves no relconfiglist. A list that remains is non-empty, and each member is a split of the configuration with room for twoJ, projections and at least one CSF. Conversely, for a configuration of the target parity with room for twoJ, every such split is kept. The survivors keep their order among the splits. |
| Generator.AngularDataStore.Record | Configuration/ConfigGenerator.cpp:366 | A pass over the angular-data directory is recorded at the end of the log. |
| Generator.ConfigGenerator.constructor | Configuration/ConfigGenerator.cpp:5-23 | The valence shell set holds the shells of the valence orbitals with kappa < 0, and the leading list starts empty. |
| Generator.ConfigGenerator.CollectShells | Configuration/ConfigGenerator.cpp:124-125 | Inserting the shells of the orbitals one by one builds ShellsOf. |
| Generator.ConfigGenerator.CollectTargets | Configuration/ConfigGenerator.cpp:121-171 | Builds the targets of one step, pruned to the basis when pairs were given. |
| Generator.ConfigGenerator.ReadLeadingConfigurations | Configuration/ConfigGenerator.cpp:85-109 | Fails at the first leading configuration with a different electron number. Otherwise it returns that number and leaves the leading list, with the vacuum added for zero. |
| Generator.ConfigGenerator.RunExcitations | Configuration/ConfigGenerator.cpp:114-174 | Runs max(depths) excitation steps, each with its own targets. |
| Generator.ConfigGenerator.AddExtraConfigurations | Configuration/ConfigGenerator.cpp:176-190 | Stops at the first extra configuration with the wrong electron number, and appends all of them when there is none. |
| Generator.ConfigGenerator.GenerateNonRelConfigurations | Configuration/ConfigGenerator.cpp:33-194 | Returns the usage error or the list that NonRelConfigurations specifies, and leaves the leading list. |
| Generator.ConfigGenerator.ExpandOne | Configuration/ConfigGenerator.cpp:218-219 | Fills the relconfiglist of one selected configuration and appends its splits. |
| Generator.ConfigGenerator.ExpandSelected | Configuration/ConfigGenerator.cpp:213-227 | Fills the relconfiglist of every selected configuration and appends their splits in list order. |
| Generator.ConfigGenerator.GenerateRelativisticConfigurations | Configuration/ConfigGenerator.cpp:196-209 | Returns RelativisticList of the configurations, each of which now has its relconfiglist filled. |
| Generator.ConfigGenerator.GenerateRelProjections | Configuration/ConfigGenerator.cpp:352-391 | Nothing happens for a null or empty list. Otherwise the list is filtered by projections, then by CSFs, and the library is read, generates its CSFs and is written, even if everything is erased. |
| Generator.ConfigGenerator.GenerateSymmetryConfigurations | Configuration/ConfigGenerator.cpp:211-228 | Returns SymmetryRelList. Only the configurations with the right symmetry get a relconfiglist, and the library passes happen only when projections are asked for. |
| Generator.ConfigGenerator.GenerateConfigurationsFor | Configuration/ConfigGenerator.cpp:230-254 | Returns the usage error or the list SymmetryConfigurations specifies. The library passes happen only when projections are asked for. |
| Generator.ConfigGenerator.ProjectAll | Configuration/ConfigGenerator.cpp:408-429 | Each configuration of the wrong symmetry loses its relconfiglist. Each other one gets its projectable splits. |
| Generator.ConfigGenerator.KeepWithCSFs | Configuration/ConfigGenerator.cpp:437-450 | Each relconfiglist keeps its members with CSFs, and one left empty is nulled. A null one is passed over. |
| Generator.ConfigGenerator.GenerateNonRelProjections | Configuration/ConfigGenerator.cpp:393-451 | Nothing happens for a null or empty list. Otherwise every configuration ends as FinalConfig of ProjectedConfig, and the library is read, generates its CSFs and is written. |
| HamiltonianTypes.SingleOrbitalRoundTrip | Atom/HamiltonianTypes.h:15-45 | GetOrbitalInfo of an ID built from an OrbitalInfo gives that OrbitalInfo back. Name and Print are that orbital's name. |
| HamiltonianTypes.SingleOrbitalIDInjective | Atom/HamiltonianTypes.h:15 | Two orbitals give equal IDs exactly when they are the same orbital. |
| HamiltonianTypes.SingleOrbitalOrder | Atom/HamiltonianTypes.h:18-34 | operator< is a strict total order, operator== is identity, and operator> holds exactly when neither < nor == does. |
| HamiltonianTypes.CloneSingleOrbitalEqual | Atom/HamiltonianTypes.h:53-55 | A clone equals the original and orders like it. |
| HamiltonianTypes.NonRelIDOrder | Atom/HamiltonianTypes.h:72-88 | operator< is a strict order, operator> holds exactly when neither < nor == does, and equal IDs are not less than each other. |
| HamiltonianTypes.CloneNonRelIDEqual | Atom/HamiltonianTypes.h:106-108 | A clone equals the original and orders like it. Its configuration copy has a null relconfiglist. |
| HamiltonianTypes.NonRelIDParity | Atom/HamiltonianTypes.h:68-69 | The ID's parity is the configuration's, shared by every relativistic configuration the configuration splits into. |
| HamiltonianTypes.NonRelIDNameSplit | Atom/HamiltonianTypes.h:93-95 | The name is the configuration's name, a dot, then the symmetry's name, and splitting at the first dot gives both back. |

## Left out

- ConfigurationParser::ParseBasisSize is not part of this model. The limits it would parse for
  each step are the input function `basisLimits`.
- The MultirunOptions lookups and NonRelConfiguration(name) are not modelled. The entry counts,
  the first entry as an integer, and the parsed leading and extra configurations are inputs
  (`UserInput`).
- The angular-momentum library is not modelled: AngularDataLibrary, GetTwiceMaxProjection,
  GetProjections, NumCSFs, and the angular-data directory name. They are the functions of
  `Angular`. The library's Read, GenerateCSFs and Write are recorded as events; nothing is read
  from or written to disk.
- Generator.ConfigGenerator.GenerateNonRelProjections: GetProjections is taken as a test that
  does not change the relativistic configuration it is called on. The projections it computes
  and stores are not modelled.
- SortedList.h is not part of this model. `merge` is modelled as appending the leading list to an
  empty list, the only way it is used here.
- `sort(FewestProjectionsFirstComparator())` followed by `unique()` is modelled as one
  sort-and-deduplicate under that comparator. The comparator is not shown. It is taken to order
  by projection count, then by configuration.
- The header ConfigGenerator.h is not shown. The default `two_j` of the relativistic
  GenerateProjections is taken to be `two_m`, which is how the overloads call it.
- `exit(1)` after a usage message is a `Failure` carrying which input was wrong. The error-stream
  text is not modelled.
- The `one_body` and `two_body` arguments of GenerateNonRelConfigurations are never used in it,
  and are left out.
- A null `nrlist` passed to the relativistic overloads is not modelled. They dereference it at
  once, and every caller passes a list.
- NonRelConfiguration::Name, ShortName and CalculateConfigurationAverageEnergy are not modelled:
  string formatting and floating point. The names used by the HamiltonianID variants are
  parameters.
- HamiltonianID::Read, SingleOrbitalID::Read and NonRelID::Read are not modelled: file input.
- The default constructors of SingleOrbitalID and NonRelID, and GetPQN, GetNonRelConfiguration
  and GetLeadingConfigs, are plain accessors and are not modelled.
- NonRelConfigs.AddSingleParticleSpec: the capacity bound of a configuration is proved to be kept
  by every change, not assumed of every configuration. A configuration parsed from a name is not
  checked, so the bound holds for generated candidates whenever it holds for the inputs.
- Generator.NonRelConfigurationsSuccess: capacity is stated under the hypothesis that the leading
  and extra configurations are within it, for the same reason.
- Several rules come from code that is not part of this model, and are assumptions:
  - ChangeOccupancy (AddSingleParticle and RemoveSingleParticle) succeeds exactly when the new
    occupancy stays within 2(2l+1) in magnitude. This two-sided rule is taken from the OccupationMap
    code, which is not shown.
  - `Choices`, the splits of one shell into its j = l - 1/2 and j = l + 1/2 parts, and the order
    they are produced in.
  - The orders NonRelInfoLess, OrbitalInfoLess, LexLess (Configuration::operator<) and
    SymmetryLess, and KappaOf (Symmetry::GetKappa).
  - `unique()` keeps the first of a run of equivalent elements.
  - Collapse, from a relativistic occupation map to its shells, and ConfigList built from a
    relativistic list.
- Excitations.GenerateExcitations: the loops add a candidate only when both of its changes
  succeed. The source ignores those results (Findings, first row). MoveResultAsWrittenAgrees and
  AnnihilationAsWrittenAgrees prove the two agree for every configuration within capacity.
- Shared ownership is not modelled. The relconfiglist a configuration points to and the list
  GenerateRelativisticConfigs returns are one list in the source; here they are equal values.

## Findings

| source | as written | input that shows it | evidently intended | confidence | as-written member | corrected member |
|---|---|---|---|---|---|---|
| Configuration/ConfigGenerator.cpp:278, 291, 328-329, 335-336 | The first AddSingleParticle or RemoveSingleParticle of a move, and both changes of a pair annihilation, ignore their result. The candidate is added even when that change failed. | 1s with four electrons (over capacity) moved to 2s: the removal fails, and a configuration with five electrons is added. 1s with four holes annihilated with one 2s electron: a configuration with one electron fewer is added. Both inputs fail only under the two-sided success rule assumed under Left out; if the real check is one-sided, the ignored results cannot be false on these paths. | A candidate is added only when every change succeeded, so the electron number is conserved. | not executed | Excitations.MoveResultAsWritten, Excitations.AnnihilationResultAsWritten, Excitations.OverfilledShellMove, Excitations.OverfilledShellAnnihilation | Excitations.MoveResult, Excitations.AnnihilationResult, Excitations.AnnihilationResultConserves, Excitations.MoveResultAsWrittenAgrees, Excitations.AnnihilationAsWrittenAgrees |
| Configuration/ConfigGenerator.cpp:413, 439, 448 | The final pass dereferences every `relconfiglist`, including those the first pass set to null for the wrong parity or too little room. | One 2p electron (odd) with an even target symmetry: its relconfiglist is cleared at 413 and dereferenced at 439. | Configurations without a relconfiglist are passed over in the final pass. | not executed | Generator.FinalPassAsWritten, Generator.NullRelConfigListDereference | Generator.FinalConfig, Generator.FinalPassAgreement, Generator.ProjectedConfigSpec, Generator.ConfigGenerator.KeepWithCSFs |

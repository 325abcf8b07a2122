# Verified models of the admin service

A Dafny project that models the parts of the Go service under `aoi-admin/` whose behaviour is decided by its
own code, and proves what those parts promise. It stands beside the service and needs nothing from it:
`dafny verify dfyconfig.toml` checks all of it.

**Persistent configuration.** A YAML tree on disk, the process environment and a published snapshot are kept in step
by `Load`, `Update` and the file watcher. The main law: after a successful `Update`, in any of the three persist
modes, a reload under the same environment gives back the published value at every requested path; after a force-file
update the environment may even change. When an update succeeds is an equivalence too, on what the caller can check
before the call: the mode, access to the file, the validators, and for every path to be written the field, its value,
its variable and what the file has there. The law of the reload is stated for one call, for the file change that
follows, and for any later reload of a run in which nobody touches the field. Beside it: an update that fails, at
whatever stage, names a reason that is there and leaves snapshot, file and hooks alone, and one that succeeds writes before it publishes; the fields
that an update does not ask for load as before, and a file that decodes still does, with the exact condition in the
one mode where it may not; in every run the in-memory list of disabled paths is the file's list in normal form, except
for the states that the theorem names; a batch of YAML updates keeps every node it does not write, every earlier
lookup, and every placeholder it may not overwrite. The writer is modelled twice: as a function on trees (`YamlTree`),
about which the laws are stated, and as loops that change heap nodes in place (`YamlHeap`, `YamlDocument`), proved to
leave on the heap exactly the tree that the function gives. Where a path leads is stated step by step, for keys and
for indexes (`YamlPaths`), and so is when a batch succeeds and what it leaves under every key (`YamlSuccess`). The
manager (`ConfigManager`) runs the heap form.

What a load gives for a field is also said directly, without the functions that work it out (`ConfigSources`): which
variable speaks for it, how the text of a variable is read, and that a placeholder becomes the variable's text if that
is set and not empty, and its default otherwise.

The loader folds keys to lower case and the writer does not. Fields and files may use capitals, as the service's
`sslMode` and `readTimeout` do; what is asked is that no mapping holds two keys that fold alike, that no two fields
do, and that the file spells `env_override.disabled_paths` as the writer does. What the loader keeps from one `Load` to
the next is modelled as a layer over the file (`ConfigLayers`).

**SQL generator and DDL parser.** Both work on characters. The main law: a script of CREATE TABLE statements printed
for MySQL or SQLite is cut into exactly those statements, and each is parsed back to the table it was printed from:
name, column order and names, canonical Go types, sizes, auto-increment, NOT NULL and primary key. The law is an
equivalence: it holds exactly when no column outside the key shares its name, up to letter case, with a column of the
key clause. Comments of any text and defaults are covered on the printing side: a comment is one literal that reads
back as the comment, and it never hides the parenthesis that closes the table. Beside it: quoting survives
interpolation and every literal reads back as its value, placeholder substitution is simultaneous, the parenthesis
around any balanced text is matched, the text of a migration reads back as the migration, and its rollback restores
the schema exactly under a condition that the caller can read off the schema.

**Hybrid cache.** Whatever the local cache evicts or refuses, and however long the client waits, a run answers like a
plain map; with expiries, nothing is served later than the default lifetime after its expiry, as long as Expire is
called only where a stated condition holds, which is exact.

**Executor pools.** All interleavings of Execute, Reload and Shutdown, as small steps: every pool ever created has
exactly one owner and is released at most once, and how an Execute ends is an equivalence with what it saw at its
check, its map read and its submit.

**Rate limiter and prompt answers.** The fixed window lets through at most `2 * Limit - 1` requests in any stretch of
one window, and that bound is reached; the wildcard answer does not depend on the order of a map.

Where the code does not keep a promise one would expect, the project shows the case and proves the exact condition:

- Lists part after an outside edit that is turned down: `ConfigExample.RejectedEditAtWork`, exactly as
  `ConfigRuns.OutsideEditPartsListsExactly` says; `ConfigRuns.UpdateResyncsExactly` says when an update joins them again.
- A second `Load` on one manager keeps what the first one saw: `ConfigCases.SecondLoadAtWork`, with
  `ConfigLayers.RepeatedLoadKeepsFirstList`.
- An integer field can be printed as a column that is too narrow for it: `SqlRanges.PrintedHoldsExactly`, exactly for the
  types that it names in each dialect.
- A padded path text is accepted but does not reach the list: `ConfigExample.ForceFileAtWork` and
  `ConfigExample.RuntimeEnvOnlyAtWork`, with `ConfigRoundTrip.ForceFileSurvivesExactlyByPathText` and
  `ConfigRoundTrip.RuntimeEnvOnlyReloadsExactlyByPathText`.
- A placeholder under a listed path with capitals is filled all the same: `ConfigCases.CapitalsAtWork`, with
  `ConfigIsolation.LoadedSealedExactly`.
- A file that decodes may not decode after runtime-env-only: `ConfigCases.PlaceholderOpens`, with
  `ConfigKeeping.RuntimeDecodesExactly`.
- Expire can break the bound on lateness: `HybridCache.ExpireOutlivesBound`, with `HybridCache.ExpireExactly`. A counter
  step can disagree with the plain map: `HybridCache.CounterOnText`, with `HybridCache.Hybrid.IncrBy`.
- A Reload can install pools after a Shutdown: `ExecutorPools.LateReloadInstalls`, with
  `ExecutorPools.EmptyForeverExactly`.
- A rollback does not always restore: `SqlMigration.RollbackAtWork`, with `SqlMigration.RollbackOfOne`.
- Values of the remaining kinds are quoted but not escaped: `SqlInterpolate.OtherIsTransparentExactly` and
  `SqlInterpolate.OtherIsTransparentIfQuotesPair`.

Numbered placeholders of SQL templates are replaced one by one. `SqlInterpolate.OneByOneIsAllAtOnce` says when that is
the same as all at once, and `SqlInterpolate.FirstIsFoundInsideTenth`, `SqlInterpolate.ValueIsRescanned` and
`SqlInterpolate.TenthIsFoundAcrossValues` show that each of its three conditions is needed.

What the engine takes as given is a parameter: the table of configuration fields with their types and variable names,
the loader's lenient conversions, and the section validators (`ConfigModel.App`); pattern matching in prompt answers;
the admission decisions and evictions of the local cache; clock readings. Values named in a law must be in the form
that validation gives (`ConfigRoundTrip.Fixes`) and free of placeholders (`PlainLeaf`).

## Model

| member | source | states |
|---|---|---|
| `PathLists.NormalizePaths` | aoi-admin/internal/config/update_options.go:50-65 | the loop gives the list trimmed, without blanks and without later repeats |
| `PathLists.NormalizeClean` | aoi-admin/pkg/configloader/yaml.go:364-380 | a normalised list has no blanks, no padding and no repeats |
| `PathLists.NormalizeMember` | aoi-admin/internal/config/update_options.go:50-65 | exactly the trimmed, non-blank entries are in it |
| `PathLists.NormalizeFixed` | aoi-admin/internal/config/update_options.go:50-65 | normalising changes nothing exactly when the list is clean already |
| `PathLists.NormalizeAppend` | aoi-admin/internal/config/persist.go:140-161 | adding paths keeps the list as a prefix and appends only what is new |
| `PathLists.AddPaths` | aoi-admin/internal/config/persist.go:140-161 | the grown list, and whether it grew |
| `PathLists.RemovePaths` | aoi-admin/internal/config/persist.go:164-179 | the list without the given paths, and whether one of them was there |
| `PathLists.KeepPaths` | aoi-admin/internal/config/persist.go:123-137 | the paths that are not removed, in order |
| `Placeholders.SubstitutePlain` | aoi-admin/internal/config/manager.go:366-394 | a text without placeholders loads as itself in every environment |
| `Placeholders.DefaultedHole` | aoi-admin/internal/config/manager.go:366-394 | `${NAME:default}` in front of any rest becomes the value of the variable if that may be read, is set and is not empty, and the default otherwise; the rest is replaced by itself |
| `Placeholders.NamedHole` | aoi-admin/internal/config/manager.go:366-394 | the same for `${NAME}`, with the empty text as its default |
| `Placeholders.PlainExactly` | aoi-admin/internal/config/manager.go:366-394 | a text is plain exactly if it nowhere holds such a text with a name that is not empty |
| `Placeholders.SubstituteWithoutEnvironment` | aoi-admin/internal/config/manager.go:366-394 | with the environment shut out the result does not depend on it |
| `Placeholders.DefaultsFixExactlyPlain` | aoi-admin/internal/config/manager.go:366-394 | from defaults alone exactly the plain texts load as themselves |
| `Placeholders.UnmanagedIsPlain` | aoi-admin/pkg/configloader/yaml.go:41 | what the loader would replace, the writer recognises as a placeholder |
| `Placeholders.ManagedExactly` | aoi-admin/pkg/configloader/yaml.go:41 | the writer leaves a text alone exactly if somewhere "${", at least one character other than the closing brace, and that brace follow each other |
| `Placeholders.PlaceholderDepends` | aoi-admin/internal/config/manager.go:366-394 | a text with a placeholder depends on the variable that its first placeholder names: a long enough value makes it longer |
| `ConfigSources.VariableOfField` | aoi-admin/internal/config/override_env.go:101-122 | a tagged field takes the prefixed variable if it is set and not empty, else the variable of the very name in its tag |
| `ConfigSources.FlagText` | aoi-admin/internal/config/override_env.go:148-187 | the texts that are read as true, and those that are read as false |
| `ConfigSources.NumberText` | aoi-admin/internal/config/override_env.go:148-187 | decimal digits, with or without zeros and a sign in front, are read as that number if it fits the field |
| `ConfigSources.ListText` | aoi-admin/internal/config/override_env.go:189-220 | texts with commas between them are read as the list of the trimmed texts |
| `ConfigSources.BlankIsPassedOver` | aoi-admin/internal/config/override_env.go:210-220 | a blank text among them is passed over |
| `ConfigSources.BlanksAreNoList` | aoi-admin/internal/config/override_env.go:189-220 | blanks alone are no list, and leave the field as it is |
| `ConfigSources.HoleInFile` | aoi-admin/internal/config/manager.go:229-394 | a placeholder amid a string in the file: the variable or the default in its place, and for a listed path the default |
| `ConfigSources.HoleIsPublished` | aoi-admin/internal/config/manager.go:162-225 | what a first load and an accepted file change publish for such a field |
| `ConfigSources.LoadedFromFile` | aoi-admin/internal/config/manager.go:190-225 | a field for which no variable speaks, or none whose text can be read, or whose path is listed, is loaded as the file gives it |
| `ConfigSources.LoadedFromVariable` | aoi-admin/internal/config/override_env.go:30-62 | a string field whose prefixed variable is set, and whose path is not listed, is loaded as the text of the variable |
| `ConfigSources.MissingSetting` | aoi-admin/internal/config/manager.go:190-194 | a setting that the file lacks is the zero of the field's type |
| `ConfigSources.NullSetting` | aoi-admin/internal/config/manager.go:190-194 | so is a setting that is written as null |
| `ConfigSources.BlankKeyIsInside` | aoi-admin/internal/config/manager.go:261-280 | a setting under a blank key counts to the path of its mapping: where that is listed, a placeholder takes its default |
| `ConfigSources.RefusedExactly` | aoi-admin/internal/config/manager.go:162-189 | a file is refused by the reader exactly if it is no mapping, or has a mapping anywhere with a key that is no scalar or comes twice |
| `ConfigSources.NumberSetting` | aoi-admin/internal/config/manager.go:190-194 | a number in the file is read as that number |
| `YamlHeap.MappingValue` | aoi-admin/pkg/configloader/yaml.go:288-299 | the loop finds the first value under a key |
| `YamlHeap.ChildValue` | aoi-admin/pkg/configloader/yaml.go:265-285 | the child that a segment names, or the error; which one that is, `YamlPaths` says |
| `YamlHeap.ValueNodeForPath` | aoi-admin/pkg/configloader/yaml.go:241-262 | the walk ends at the node of the position that the path resolves to, or with the same error |
| `YamlPaths.SequenceStep` | aoi-admin/pkg/configloader/yaml.go:273-281 | behind a path that leads to a sequence, a segment leads on to item i exactly if it is the number i and there is such an item; else the stated error |
| `YamlPaths.MappingStep` | aoi-admin/pkg/configloader/yaml.go:265-299 | behind a path that leads to a mapping, a segment leads to the value slot right behind the first key equal to it; without such a key the stated error |
| `YamlPaths.ScalarStep` | aoi-admin/pkg/configloader/yaml.go:265-285 | nothing is below a scalar |
| `YamlPaths.IndexLeadsTo` | aoi-admin/pkg/configloader/yaml.go:241-285 | the text of a path, a dot and the digits of i lead to item i of the sequence that the path leads to |
| `YamlPaths.IndexedWrite` | aoi-admin/pkg/configloader/yaml.go:75-92 | a write there replaces item i, and all other items and nodes stay |
| `YamlHeap.EnsureValueNodeForPath` | aoi-admin/pkg/configloader/yaml.go:108-135 | the walk appends the missing keys in place; the heap then shows the grown tree |
| `YamlHeap.EnsureSegments` | aoi-admin/pkg/configloader/yaml.go:108-135 | the loop of that walk |
| `YamlHeap.ContainsEnvPlaceholder` | aoi-admin/pkg/configloader/yaml.go:302-315 | the walk finds a placeholder exactly if some scalar below holds one |
| `YamlHeap.SetScalarValue` | aoi-admin/pkg/configloader/yaml.go:318-361 | the node written in place; the heap shows the tree with that one node replaced |
| `YamlHeap.FillStrings` | aoi-admin/pkg/configloader/yaml.go:345-356 | the loop that fills a sequence with string nodes |
| `YamlHeap.UpdateOne` | aoi-admin/pkg/configloader/yaml.go:75-92 | one update in place is one update of the tree |
| `YamlHeap.UpdateYamlScalars` | aoi-admin/pkg/configloader/yaml.go:52-105 | the batch in place leaves the tree that the batch function gives, or returns its error; after an error the heap shows the updates before the failing one, at most with keys appended |
| `YamlDocument.Build` | aoi-admin/pkg/configloader/yaml.go:67-73 | fresh heap nodes that show the tree which the file amounts to |
| `YamlDocument.Print` | aoi-admin/pkg/configloader/yaml.go:94-97 | the tree that the heap nodes show, whatever was changed in them |
| `YamlDocument.ParseThenPrint` | aoi-admin/pkg/configloader/yaml.go:52-105 | reading a document and printing it gives the document |
| `YamlUpdates.EnsureGrows` | aoi-admin/pkg/configloader/yaml.go:108-135 | creating a path only appends, and the path then resolves to the created node |
| `YamlUpdates.ApplyFrame` | aoi-admin/pkg/configloader/yaml.go:75-92 | one update keeps the label of every node not at or below the written one |
| `YamlUpdates.BatchFrame` | aoi-admin/pkg/configloader/yaml.go:75-135 | so does a whole batch |
| `YamlUpdates.BatchLookup` | aoi-admin/pkg/configloader/yaml.go:241-262 | a path that resolved before resolves to the same position, unless something above it was written |
| `YamlUpdates.BatchLastWriter` | aoi-admin/pkg/configloader/yaml.go:75-92 | the last write at a node decides what it holds, and its path leads there |
| `YamlUpdates.BatchSparesPlaceholder` | aoi-admin/pkg/configloader/yaml.go:302-361 | without the overwrite option every scalar with a placeholder keeps its text, also inside sequences |
| `YamlSuccess.ApplyExactly` | aoi-admin/pkg/configloader/yaml.go:75-92 | one update succeeds exactly if its key leads to a node of the right kind that may be overwritten, or may be made and can be |
| `YamlSuccess.BatchExactly` | aoi-admin/pkg/configloader/yaml.go:75-92 | a batch succeeds exactly if each of its updates does, by the tree before the batch and the earlier updates for the same key |
| `YamlSuccess.BatchView` | aoi-admin/pkg/configloader/yaml.go:75-135 | what the writer finds after a batch under each key: what the last update for it wrote, and elsewhere what it found before |
| `ConfigFile.ResolveIsLoadLookup` | aoi-admin/pkg/configloader/yaml.go:241-262 | the writer's exact lookup and the loader's folded lookup agree on a file in which no mapping holds two keys that fold alike |
| `ConfigFile.BatchStores` | aoi-admin/pkg/configloader/yaml.go:75-92 | seen through the loader's folded lookup, a batch sets the keys it names and leaves all keys apart from them |
| `ConfigReload.ProcessLookup` | aoi-admin/internal/config/manager.go:261-356 | looking a key up in the processed settings is processing what the key holds, under the key's folded path |
| `ConfigReload.WrittenLeafReadsBack` | aoi-admin/internal/config/persist.go:236-270 | a value written to the file decodes to the same value |
| `ConfigReload.PersistStores` | aoi-admin/internal/config/persist.go:19-61 | persisting stores the snapshot's value under every named key and nothing else |
| `ConfigLaws.RebuildSyncs` | aoi-admin/internal/config/manager.go:617-676 | a reload brings the in-memory disabled list in line with the list in its settings |
| `ConfigLayers.RepeatedLoadKeepsFirstList` | aoi-admin/internal/config/manager.go:229-253 | a second load on one manager keeps the first load's list, and is in step exactly if the file's list stayed the same |
| `ConfigCases.SecondLoadAtWork` | aoi-admin/internal/config/manager.go:162-253 | Load, a force-file update, Load: the second load publishes the value and the list of the first, and the written path is gone from memory |
| `ConfigLayers.LayerKeepsList` | aoi-admin/internal/config/manager.go:229-253 | the layer that a load leaves holds the list of the settings it was made from, if they have one |
| `ConfigLaws.ForceFileAdds` | aoi-admin/internal/config/persist.go:140-161 | force-file adds exactly the requested paths |
| `ConfigLaws.RuntimeEnvOnlyRemoves` | aoi-admin/internal/config/persist.go:64-93 | runtime-env-only removes exactly the paths it took from the environment |
| `ConfigLaws.PrepareDisabled` | aoi-admin/internal/config/manager.go:448-475 | the disabled list that each mode publishes; reject leaves it alone |
| `ConfigLaws.PlanStores` | aoi-admin/internal/config/manager.go:429-486 | what an update leaves under each key of the file |
| `ConfigLaws.PlanKeepsPlain` | aoi-admin/internal/config/manager.go:448-475 | an update keeps both lists free of placeholders |
| `ConfigLaws.PlanKeepsSync` | aoi-admin/internal/config/manager.go:448-475 | in every mode the published list is the file's list in normal form |
| `ConfigRoundTrip.RequestedPathHandled` | aoi-admin/internal/config/persist.go:19-93 | every requested path was written or taken from the environment |
| `ConfigRoundTrip.TakenExactly` | aoi-admin/internal/config/persist.go:64-93 | a requested path is taken from the environment exactly if its field has a variable that is set |
| `ConfigSuccess.TakeAllExactly` | aoi-admin/internal/config/persist.go:64-93 | runtime-env-only accepts the paths exactly if each is owned by a variable with a fitting text, or leads to a setting without a placeholder and is not listed |
| `ConfigSuccess.WritingExactly` | aoi-admin/internal/config/persist.go:19-61 | writing back succeeds exactly if the file is accessible, the mode is supported, and every path names a field with a persistable value, no variable outside force-file, and a fitting place in the file |
| `ConfigSuccess.UpdateSucceedsExactly` | aoi-admin/internal/config/manager.go:429-486 | an update succeeds exactly if its condition holds, in every mode; it publishes the candidate as validated, and writes exactly if there is a path to write |
| `ConfigErrors.ErrorIsTrue` | aoi-admin/internal/config/persist.go:19-121 | whichever error an update returns, the reason that it names is there: the path it names was asked for and has that variable, value or place in the file, or access, mode or validation are as it says |
| `ConfigExample.RejectAtWork` | aoi-admin/internal/config/persist.go:19-61 | the default mode: without a variable the value is written and published, with one the update is refused |
| `ConfigKeeping.UnrequestedLeafStays` | aoi-admin/internal/config/persist.go:19-179 | a field that an update does not ask for loads as before in every environment, and the list has its path as before |
| `ConfigKeeping.OnlyValidationTurnsDown` | aoi-admin/internal/config/manager.go:429-486 | after reject and force-file a file that was read and decoded is read and decoded still: only validation can turn the reload down |
| `ConfigKeeping.RuntimeDecodesExactly` | aoi-admin/internal/config/persist.go:64-93 | after runtime-env-only it decodes exactly if every requested field that a variable owns decodes with the owned paths off the list |
| `ConfigCases.PlaceholderOpens` | aoi-admin/internal/config/manager.go:366-394 | a number with a default that decodes as long as its path is listed, and not any more once it is taken off |
| `ConfigRoundTrip.WrittenKeyReloads` | aoi-admin/internal/config/manager.go:229-394 | a key that was written and that the environment does not reach reloads as written |
| `ConfigRoundTrip.OwnedKeyReloads` | aoi-admin/internal/config/override_env.go:30-62 | a key that the environment owns reloads from the environment |
| `ConfigRoundTrip.UpdateThenReload` | aoi-admin/internal/config/manager.go:429-486 | after any successful update a reload gives the published value at every requested path whose text reaches the list; after force-file in any environment |
| `ConfigExample.ForceFileAtWork` | aoi-admin/internal/config/manager.go:429-486 | for a camel-case field and a variable with any other value: all that the law asks for holds, but for a padded path, and then the written value is lost |
| `ConfigExample.RuntimeEnvOnlyAtWork` | aoi-admin/internal/config/persist.go:64-93 | a padded path is taken from the environment, and the reload goes back to the file |
| `ConfigRoundTrip.ForceFileSurvivesExactlyByPathText` | aoi-admin/internal/config/override_env.go:30-62 | against a conflicting variable the value survives exactly if the plain path text was requested or listed |
| `ConfigRoundTrip.RuntimeEnvOnlyReloadsExactlyByPathText` | aoi-admin/internal/config/persist.go:64-93 | against a conflicting file the variable's value survives exactly if the plain path text was requested or not listed |
| `ConfigIsolation.SealedExactly` | aoi-admin/internal/config/manager.go:261-394 | a setting is the same in any two environments exactly if every string below is plain or under a disabled path in the loader's spelling |
| `ConfigIsolation.LoadedSealedExactly` | aoi-admin/internal/config/manager.go:190-394 | what the file gives for a field, from a string or a list of strings, is the same in every environment exactly if the setting is sealed |
| `ConfigIsolation.DisabledPathIgnoresEnvironment` | aoi-admin/internal/config/manager.go:326-394 | the value loaded for a disabled path with a sealed setting is the same in any two environments |
| `ConfigIsolation.LowerCasePathIgnoresEnvironment` | aoi-admin/internal/config/manager.go:326-394 | for a lower-case path with a scalar or list the entry in the list is enough |
| `ConfigCases.CapitalsAtWork` | aoi-admin/internal/config/manager.go:326-394 | a camel-case path in the list and a placeholder under it: the file loads as whatever text the variable holds |
| `ConfigRuns.EveryRunKeepsInvariant` | aoi-admin/internal/config/manager.go:162-676 | in every state of every run: published snapshots passed validation, the disabled list is clean, and it is in step unless an outside edit is pending or a repeated load kept an older list |
| `ConfigRuns.UpdateThenFileChange` | aoi-admin/internal/config/manager.go:429-676 | in a state that the invariant allows: an update and then the handled file change keep the published value at every requested path, whether the reload is accepted or not |
| `ConfigRuns.CentralLawOnRuns` | aoi-admin/internal/config/manager.go:429-676 | the same at any place of any run, with a change of environment in between after force-file |
| `ConfigPersistence.PersistedValueStays` | aoi-admin/internal/config/manager.go:429-676 | a persisted value is what any later reload of a run gives, if no step in between asks for the field, edits the file, brings an older list back, or outside force-file changes the environment |
| `ConfigRuns.OutsideEditPartsListsExactly` | aoi-admin/internal/config/manager.go:617-676 | after an outside edit and the file change it causes, the lists are in step exactly if the file was taken in or has the list of the one before; a rejected edit keeps the snapshot |
| `ConfigExample.RejectedEditAtWork` | aoi-admin/internal/config/manager.go:617-676 | a file with another list that validation turns down: the lists have parted |
| `ConfigRuns.AcceptedReloadResyncs` | aoi-admin/internal/config/manager.go:617-676 | an accepted file change brings parted lists together |
| `ConfigRuns.UpdateResyncsExactly` | aoi-admin/internal/config/manager.go:429-486 | an update leaves the lists together exactly if it writes the list, by the condition on its inputs, or they were together before |
| `ConfigRuns.ListIsWrittenExactly` | aoi-admin/internal/config/manager.go:448-475 | an update writes the list exactly if it asks for it, or force-file asks for a path not in memory, or runtime-env-only asks for one in memory that a variable owns |
| `ConfigManager.CollectUpdates` | aoi-admin/internal/config/persist.go:27-52 | the loop turns paths into updates and stops at the first error |
| `ConfigManager.RewriteFile` | aoi-admin/pkg/configloader/yaml.go:52-105 | parsing into heap nodes, changing them in place and printing them gives what the batch function gives, or its error |
| `ConfigManager.TakeOwnedPaths` | aoi-admin/internal/config/persist.go:64-93 | the loop takes over the values of the paths that the environment owns |
| `ConfigManager.DraftUpdate` | aoi-admin/internal/config/manager.go:448-475 | the candidate snapshot, the paths to write and the metadata flag, by mode |
| `ConfigManager.OverrideFields` | aoi-admin/internal/config/override_env.go:30-62 | the walk sets the fields that the environment owns and that are not disabled |
| `ConfigManager.DecodeFields` | aoi-admin/internal/config/manager.go:190-194 | the walk over the fields decodes all of them, or stops at the first one that does not decode |
| `ConfigManager.Manager.Load` | aoi-admin/internal/config/manager.go:162-225 | the manager after a load, with the layer it leaves, is the next state of the run model; a success publishes one snapshot and calls no hook, an error publishes nothing |
| `ConfigManager.Manager.HandleConfigChange` | aoi-admin/internal/config/manager.go:617-676 | the same for a file change: an accepted snapshot that is new is published, and then each hook is called once in order; otherwise nothing happens |
| `ConfigManager.Manager.Commit` | aoi-admin/internal/config/manager.go:448-480 | the stages up to the write on the heap form: the outcome that the laws are about, or an error that leaves file and trace alone |
| `ConfigManager.Manager.Update` | aoi-admin/internal/config/manager.go:429-486 | succeeds exactly if the condition of `ConfigSuccess` holds, and then leaves the validated candidate; an error names a reason that is there, and leaves snapshot, file and trace alone; a success writes, publishes, then calls each hook once in order; the manager is then the next state of the run model |
| `ConfigManager.Manager.NotifyHooks` | aoi-admin/internal/config/manager.go:553-560 | each hook is called once, in order, with the old and the new snapshot |
| `SqlScan.FindMatchingParen` | aoi-admin/pkg/sqlgen/parser.go:193-231 | the loop returns where the scanner automaton stops |
| `SqlScan.StopAfterQuiet` | aoi-admin/pkg/sqlgen/parser.go:193-231 | the scanner stops right after a quiet text that brings it to the closing parenthesis |
| `SqlScan.StopSplits` | aoi-admin/pkg/sqlgen/parser.go:193-231 | where the scanner stops, the text before is quiet and the next character closes |
| `SqlScan.EscapeIsDoubling` | aoi-admin/pkg/sqlgen/dialect.go:597-601 | the two replacements double every special character once |
| `SqlScan.UnescapeEscaped` | aoi-admin/pkg/sqlgen/dialect.go:597-601 | halving the doubled characters undoes escaping |
| `SqlScan.LiteralIsTransparent` | aoi-admin/pkg/sqlgen/parser.go:193-231 | a quoted escaped string leaves the scanner as it found it, and never stops it |
| `SqlReading.BalancedIsMatched` | aoi-admin/pkg/sqlgen/parser.go:193-231 | a parenthesis around any balanced text is matched by the one at its end, with any nesting, quotes of both kinds and backslashes in them |
| `SqlReading.OpenQuoteHides` | aoi-admin/pkg/sqlgen/parser.go:193-231 | behind a quote that is never closed no parenthesis is found |
| `SqlScan.SplitColumns` | aoi-admin/pkg/sqlgen/parser.go:245-275 | the loop cuts at commas of depth zero |
| `SqlScan.SplitOfJoin` | aoi-admin/pkg/sqlgen/parser.go:245-275 | splitting a join of whole pieces gives the pieces exactly when the last one is not empty |
| `SqlScan.JoinOfSplit` | aoi-admin/pkg/sqlgen/parser.go:245-275 | joining the split of a body gives the body exactly when it does not end in a top-level comma |
| `SqlLayout.WriteTable` | aoi-admin/pkg/sqlgen/ddl.go:103-127 | header, column definitions, key clause, indexes and engine, laid out as one statement |
| `SqlDdl.BuildInlineIndexes` | aoi-admin/pkg/sqlgen/ddl.go:139-188 | the map with its order list prints every index once, with the columns of all fields that name it |
| `SqlDdl.CollectColumns` | aoi-admin/pkg/sqlgen/ddl.go:89-100 | the definitions in order, and the quoted key columns |
| `SqlDdl.BuildCreateTable` | aoi-admin/pkg/sqlgen/ddl.go:78-129 | the printed statement |
| `SqlDefinitions.DefinitionSays` | aoi-admin/pkg/sqlgen/ddl.go:191-229 | a definition is the definition without default and comment, then the default verbatim, then for MySQL the comment in one literal |
| `SqlDefinitions.CommentLiteral` | aoi-admin/pkg/sqlgen/ddl.go:225-226 | that literal leaves the scanner as it found it at every depth, and halving the text between its quotes gives the comment |
| `SqlDefinitions.BareDefinition` | aoi-admin/pkg/sqlgen/ddl.go:191-229 | the definition without default and comment, word by word |
| `SqlDefinitions.CommentsKeepParenthesis` | aoi-admin/pkg/sqlgen/ddl.go:78-129 | with any comments on any columns, the parenthesis that opens a printed table is matched by the one that closes it |
| `SqlDefinitions.StatementFrame` | aoi-admin/pkg/sqlgen/ddl.go:78-129 | the opening words, the entries, and the engine for MySQL alone |
| `SqlDefinitions.IndexReadsBack` | aoi-admin/pkg/sqlgen/ddl.go:174-186 | the text of an index reads back as its kind, name and columns |
| `SqlDefinitions.IndexesExactly` | aoi-admin/pkg/sqlgen/ddl.go:139-172 | every index that a tag asks for is there once, with exactly the columns that ask for it, in order |
| `SqlRanges.PrintedHoldsExactly` | aoi-admin/pkg/sqlgen/dialect.go:65-430 | the column printed for an integer field holds every value of the field exactly if the type is not one of those named for the dialect |
| `SqlRanges.ReadHolds` | aoi-admin/pkg/sqlgen/dialect.go:104-467 | the Go type read from an integer column takes every value of the column |
| `SqlRanges.UnsignedReadHolds` | aoi-admin/pkg/sqlgen/parser.go:338-349 | so does the type for an UNSIGNED column |
| `SqlColumns.TypeTextIsShape` | aoi-admin/pkg/sqlgen/dialect.go:65-101 | every type text is a word, perhaps a parameter, perhaps UNSIGNED |
| `SqlColumns.FieldsOfJoin` | aoi-admin/pkg/sqlgen/parser.go:278-290 | words joined with single spaces are found again as words |
| `SqlModifiers.FindsKey` | aoi-admin/pkg/sqlgen/parser.go:313-319 | the search for PRIMARY KEY succeeds exactly if the modifier was printed |
| `SqlModifiers.FindsNotNull` | aoi-admin/pkg/sqlgen/parser.go:313-319 | the same for NOT NULL |
| `SqlModifiers.FindsAuto` | aoi-admin/pkg/sqlgen/parser.go:313-319 | the same for the four spellings of auto-increment |
| `SqlModifiers.FindsUnsigned` | aoi-admin/pkg/sqlgen/parser.go:338-349 | the same for UNSIGNED |
| `SqlColumnTrip.TypeRecovered` | aoi-admin/pkg/sqlgen/dialect.go:104-154 | the reverse mapping, corrected by the parser, gives the canonical Go type |
| `SqlColumnTrip.ColumnRoundTrip` | aoi-admin/pkg/sqlgen/parser.go:278-378 | a printed column definition parses to its name, canonical type, flags and size |
| `SqlEntries.SoundColumn` | aoi-admin/pkg/sqlgen/ddl.go:191-229 | a column definition disturbs neither the scanner nor the splitter |
| `SqlTableTrip.HeaderRead` | aoi-admin/pkg/sqlgen/parser.go:61-63 | a printed header is found at once, with the table's name |
| `SqlTableTrip.BodySplit` | aoi-admin/pkg/sqlgen/parser.go:245-275 | a printed body splits into its entries |
| `SqlTableTrip.ParseOf` | aoi-admin/pkg/sqlgen/parser.go:115-190 | reading a statement is reading its entries one by one |
| `SqlRoundTrip.EntriesTaken` | aoi-admin/pkg/sqlgen/parser.go:135-175 | columns, key clause and indexes are told apart, and read as printed |
| `SqlReading.KeywordInAnyCase` | aoi-admin/pkg/sqlgen/parser.go:61-63 | a keyword of a header is read in any letter case, with any blanks behind it |
| `SqlReading.MarkedTableIsRead` | aoi-admin/pkg/sqlgen/parser.go:61-63 | the name of a table is read without the marks of any dialect |
| `SqlReading.MarkedColumnIsRead` | aoi-admin/pkg/sqlgen/parser.go:278-290 | so is the name of a column |
| `SqlReading.SizeIsFirstParameter` | aoi-admin/pkg/sqlgen/parser.go:298-309 | of several parameters of a type the first is its size |
| `SqlReading.SerialCounts` | aoi-admin/pkg/sqlgen/parser.go:313-319 | a serial column of PostgreSQL counts by itself, in any letter case |
| `SqlReading.ConstraintIsSkipped` | aoi-admin/pkg/sqlgen/parser.go:158-166 | index, unique, foreign-key and check entries add nothing, in any letter case |
| `SqlReading.MarkedInAnyCase` | aoi-admin/pkg/sqlgen/parser.go:177-184 | a column is marked exactly if it says so itself or the key clause has its name in any letter case |
| `SqlReading.NamedKeyIsRead` | aoi-admin/pkg/sqlgen/parser.go:145-156 | a key clause behind CONSTRAINT and a name is read like one without |
| `SqlRoundTrip.TableRoundTrip` | aoi-admin/pkg/sqlgen/parser.go:115-190 | a printed table parses back faithfully exactly when its key columns tell apart |
| `SqlRoundTrip.DistinctNamesRoundTrip` | aoi-admin/pkg/sqlgen/ddl.go:78-229 | names distinct up to letter case are enough |
| `SqlCutting.FindStatements` | aoi-admin/pkg/sqlgen/parser.go:82-112 | the loop over offsets gives the slices of the spans |
| `SqlCutting.SpansInOrder` | aoi-admin/pkg/sqlgen/parser.go:82-112 | the spans lie in the input, are not empty, and each ends before the next starts |
| `SqlCutting.EndsAtSemicolon` | aoi-admin/pkg/sqlgen/parser.go:99-105 | a statement ends right behind the first semicolon after its closing parenthesis, quoted or not, or with the input |
| `SqlCutting.ScriptCut` | aoi-admin/pkg/sqlgen/parser.go:82-112 | statements joined with line breaks are cut apart again, exactly |
| `SqlStatements.TakeColumnDefs` | aoi-admin/pkg/sqlgen/parser.go:135-175 | the loop over the entries of a body |
| `SqlStatements.MarkPrimaryKeys` | aoi-admin/pkg/sqlgen/parser.go:177-184 | the nested loops mark exactly the columns named in the key, up to letter case |
| `SqlStatements.ParseCreateTable` | aoi-admin/pkg/sqlgen/parser.go:115-190 | one statement parsed, or the error |
| `SqlStatements.ParseScript` | aoi-admin/pkg/sqlgen/parser.go:31-49 | the tables of all statements that parse, in order |
| `SqlScript.BatchIsCutApart` | aoi-admin/pkg/sqlgen/transaction.go:99-105 | a batch of printed statements is cut into exactly those statements |
| `SqlScript.ScriptRoundTrip` | aoi-admin/pkg/sqlgen/parser.go:31-49 | printing any list of tables and parsing the script gives all of them back, in order |
| `SqlInterpolate.InterpolateSql` | aoi-admin/pkg/sqlgen/dialect.go:518-536 | the template's parts with the formatted values between them, in order, none read again |
| `SqlInterpolate.FirstMarkTakesFirstValue` | aoi-admin/pkg/sqlgen/dialect.go:518-536 | the first mark takes the first value and the marks behind it the others; without a value a mark stays |
| `SqlInterpolate.MarksAccounted` | aoi-admin/pkg/sqlgen/dialect.go:518-536 | exactly as many marks are replaced as there are marks and values for them |
| `SqlInterpolate.ValueReadsBack` | aoi-admin/pkg/sqlgen/dialect.go:554-594 | what a value is formatted as reads back as that value |
| `SqlInterpolate.InterpolatedScansLikeTemplate` | aoi-admin/pkg/sqlgen/dialect.go:554-594 | strings, numbers, floats, flags and bytes leave the template's quoting and nesting as it was |
| `SqlInterpolate.OtherIsTransparentExactly` | aoi-admin/pkg/sqlgen/dialect.go:590-593 | a value of any other kind does so exactly if the closing quote ends the literal at the depth at which it began |
| `SqlInterpolate.OtherIsTransparentIfQuotesPair` | aoi-admin/pkg/sqlgen/dialect.go:590-593 | without backslash, double quote and parentheses in its text, exactly if its quotes are even in number |
| `SqlInterpolate.InterpolateSqlPositional` | aoi-admin/pkg/sqlgen/dialect.go:539-551 | the numbered placeholders replaced one after the other |
| `SqlInterpolate.OneByOneIsAllAtOnce` | aoi-admin/pkg/sqlgen/dialect.go:539-551 | the same as all at once, for one digit per dollar sign, up to nine values, and no dollar sign in a value |
| `SqlInterpolate.FirstIsFoundInsideTenth` | aoi-admin/pkg/sqlgen/dialect.go:539-551 | outside that condition the first placeholder is found inside the tenth |
| `SqlInterpolate.ValueIsRescanned` | aoi-admin/pkg/sqlgen/dialect.go:539-551 | outside that condition a value is read as a placeholder |
| `SqlInterpolate.TenthIsFoundAcrossValues` | aoi-admin/pkg/sqlgen/dialect.go:539-551 | outside that condition a tenth value is put where a value stands behind a placeholder |
| `SqlMigration.ToSnakeCase` | aoi-admin/pkg/sqlgen/generator.go:229-238 | the loop and the final lower-casing give the snake-case name |
| `SqlMigration.SnakeCaseIsFinal` | aoi-admin/pkg/sqlgen/generator.go:229-238 | a name is its own snake case exactly when it has no capital; snake case is a final form |
| `SqlMigration.ToPascalCase` | aoi-admin/pkg/sqlgen/generator.go:252-260 | the loop over the parts between underscores, changed in place, gives the Pascal-case name |
| `SqlMigration.ToCamelCase` | aoi-admin/pkg/sqlgen/generator.go:241-249 | the same for camel case, which leaves the first part |
| `SqlMigration.SnakeAndBack` | aoi-admin/pkg/sqlgen/generator.go:229-260 | snake case loses only the case of the first letter: Pascal case brings a name without underscores back exactly if it does not begin with a small letter, camel case exactly if it does not begin with a capital |
| `SqlMigration.LookUpField` | aoi-admin/pkg/sqlgen/ddl.go:291-300 | the first field with that field or column name, or none |
| `SqlMigration.MigrationBuilder.Build` | aoi-admin/pkg/sqlgen/transaction.go:201-218 | the script of all operations, in order |
| `SqlMigration.MigrationBuilder.BuildRollback` | aoi-admin/pkg/sqlgen/transaction.go:221-240 | the inverse statements, from the last operation to the first, with the note for a modified column |
| `SqlMigration.ClauseReadsBack` | aoi-admin/pkg/sqlgen/transaction.go:243-285 | the text of a clause reads back as its verb, its name, and its type, columns or definition |
| `SqlMigration.StatementReadsBack` | aoi-admin/pkg/sqlgen/ddl.go:348-360 | the text of a statement reads back as its table and its clause |
| `SqlMigration.NoteIsComment` | aoi-admin/pkg/sqlgen/transaction.go:275-277 | the note for a modified column is a line of comment that names the column |
| `SqlMigration.RollbackOfOne` | aoi-admin/pkg/sqlgen/transaction.go:264-285 | the rollback of one operation restores the schema exactly when the operation is reversible there |
| `SqlMigration.RollbackAtWork` | aoi-admin/pkg/sqlgen/transaction.go:264-285 | a changed type stays changed, and the statement for a dropped index is refused |
| `SqlMigration.RollbackRestores` | aoi-admin/pkg/sqlgen/transaction.go:201-285 | a migration and then its rollback restore the schema, for any list of operations reversible when applied |
| `HybridCache.Hybrid.LocalGet` | aoi-admin/pkg/cache/local.go:36-51 | a live entry, or a miss that drops an expired one |
| `HybridCache.LocalLifetime` | aoi-admin/pkg/cache/local.go:36-74 | an entry is served up to and including the end of its lifetime, or of the default one, and without end for a negative one |
| `HybridCache.Hybrid.LocalDelete` | aoi-admin/pkg/cache/local.go:76-82 | the keys are gone |
| `HybridCache.Hybrid.LocalMSet` | aoi-admin/pkg/cache/local.go:107-118 | every entry left is an old one under another key or the last value written under its key; nothing else is lost, and all are there if all are let in |
| `HybridCache.Hybrid.LocalIncrBy` | aoi-admin/pkg/cache/local.go:154-168 | the local count, wrapped to 64 bits, or the parse error |
| `HybridCache.Hybrid.Get` | aoi-admin/pkg/cache/hybrid.go:31-44 | the plain map's answer while coherent; never later than the bound while timed |
| `HybridCache.Hybrid.Set` | aoi-admin/pkg/cache/hybrid.go:46-54 | the new entry, and both invariants kept |
| `HybridCache.Hybrid.Delete` | aoi-admin/pkg/cache/hybrid.go:56-63 | the keys gone, and both invariants kept |
| `HybridCache.Hybrid.Exists` | aoi-admin/pkg/cache/hybrid.go:65-84 | the number of distinct keys that either side holds, which while coherent is the plain map's answer |
| `HybridCache.Hybrid.MGet` | aoi-admin/pkg/cache/hybrid.go:86-113 | at every position the local value, or else the store's; the local cache afterwards; the plain map's answer while coherent, and never later than the bound while timed |
| `HybridCache.RefillsFill` | aoi-admin/pkg/cache/hybrid.go:86-113 | what reading many keys leaves in the local cache: the store's value with the default lifetime for the keys it missed, and everything else untouched |
| `HybridCache.Hybrid.MSet` | aoi-admin/pkg/cache/hybrid.go:115-126 | the pairs written in order, or the error for an odd number |
| `HybridCache.Hybrid.IncrBy` | aoi-admin/pkg/cache/hybrid.go:152-164 | the plain map's answer exactly when the store accepts the step or the local cache refuses it first |
| `HybridCache.Hybrid.Expire` | aoi-admin/pkg/cache/hybrid.go:128-135 | the local entry is prolonged whatever the store holds; the bound on lateness is kept exactly if the stated condition holds |
| `HybridCache.ExpireExactly` | aoi-admin/pkg/cache/hybrid.go:128-135 | the bound is kept exactly if nothing local is live or admitted, or the store is prolonged too, or the new end is within the bound |
| `HybridCache.Hybrid.Run` | aoi-admin/pkg/cache/hybrid.go:31-164 | any run, with any evictions, refusals and waiting, answers like the plain map |
| `HybridCache.Hybrid.RunTimed` | aoi-admin/pkg/cache/hybrid.go:31-164 | in any run, with lifetimes of any sign, any number of keys let into the local cache, and Expire where it keeps the bound: the log has one entry per value served by Get or MGet, and none is later than its expiry plus the default lifetime |
| `HybridCache.ExpireOutlivesBound` | aoi-admin/pkg/cache/hybrid.go:128-135 | with Expire a value that expired at 5 is served at 50, for a default lifetime of 10 |
| `HybridCache.CounterOnText` | aoi-admin/pkg/cache/hybrid.go:152-164 | a counter step on a text that is no number counts from zero when nothing is local |
| `HybridCache.CounterCounts` | aoi-admin/pkg/cache/hybrid.go:152-164 | the plain map's counter: a number counts on, a missing key from zero, and a step out of 64 bits is refused |
| `HybridCache.OnlyNumbersCount` | aoi-admin/pkg/cache/hybrid.go:152-164 | a text that is no number in its usual form is refused |
| `HybridCache.CountKeepsLifetime` | aoi-admin/pkg/cache/hybrid.go:152-164 | the store counts in place: the lifetime of a counter stays, a new one has none, and other keys are untouched |
| `HybridCache.LocalCounts` | aoi-admin/pkg/cache/local.go:154-168 | the local counter counts on from its number, or from zero |
| `HybridCache.LastPairStays` | aoi-admin/pkg/cache/hybrid.go:115-126 | of the pairs written under one key the last one stays |
| `ExecutorPools.NewManager` | aoi-admin/pkg/executor/manager.go:59-89 | a manager exactly for a non-empty list of distinct valid configurations, with one pool per name; otherwise every pool created so far is released |
| `ExecutorPools.StepTracks` | aoi-admin/pkg/executor/manager.go:107-259 | every step moves pools between owners as the ledger says |
| `ExecutorPools.EveryPoolHasOneOwner` | aoi-admin/pkg/executor/manager.go:59-259 | in every run every pool has exactly one owner and is released at most once |
| `ExecutorPools.NothingLeaks` | aoi-admin/pkg/executor/manager.go:241-259 | when all calls are over and the map is empty, every pool was released exactly once |
| `ExecutorPools.FailedCallsKeepLive` | aoi-admin/pkg/executor/manager.go:159-199 | a call that does not complete a reload or shutdown never changed the live map |
| `ExecutorPools.RefusedAfterStore` | aoi-admin/pkg/executor/manager.go:107-123 | an Execute or Reload whose check follows the store is refused for good and does nothing else |
| `ExecutorPools.EmptyForeverExactly` | aoi-admin/pkg/executor/manager.go:159-237 | after a shutdown the map stays empty exactly when no Reload is under way that can build all its pools |
| `ExecutorPools.LateReloadInstalls` | aoi-admin/pkg/executor/manager.go:159-199 | a run in which a Reload installs its pool after the Shutdown is over |
| `ExecutorOutcomes.RunHasTrace` | aoi-admin/pkg/executor/manager.go:107-259 | every run goes through states, each the one that the action before it leads to |
| `ExecutorOutcomes.AcceptedExactly` | aoi-admin/pkg/executor/manager.go:107-135 | an Execute runs its task on pool p exactly if the manager was open at its check, p was the live pool of its name at its map read, and at its submit p was not released and not full |
| `ExecutorOutcomes.OverloadedExactly` | aoi-admin/pkg/executor/pool.go:77-95 | it is overloaded exactly under the same conditions with a full pool |
| `ExecutorOutcomes.NotFoundExactly` | aoi-admin/pkg/executor/manager.go:107-135 | it finds nothing exactly if the manager was open at its check and had no pool of its name at its map read |
| `ExecutorOutcomes.RefusedExactly` | aoi-admin/pkg/executor/manager.go:107-135 | it is refused exactly if the manager was closed at its check or the pool it found was released at its submit |
| `ExecutorOutcomes.OneOfFourEnds` | aoi-admin/pkg/executor/manager.go:107-135 | there is no other end |
| `ExecutorOutcomes.ReloadEndsExactly` | aoi-admin/pkg/executor/manager.go:159-199 | how a Reload ends, by what it saw at its check and the configurations it was given |
| `ExecutorOutcomes.SwapInstallsNames` | aoi-admin/pkg/executor/manager.go:159-199 | what a Reload installs has exactly the names of its configurations |
| `ExecutorOutcomes.BuildableExactly` | aoi-admin/pkg/executor/manager.go:159-199 | a list of configurations can be built exactly if all are valid and no name comes twice |
| `RateLimit.Normalized` | aoi-admin/internal/middleware/ratelimit.go:34-39 | limit and window are kept where they are positive, and are twenty requests and one minute otherwise |
| `RateLimit.Limiter.Handle` | aoi-admin/internal/middleware/ratelimit.go:44-67 | the window after a request, the decision, the first request after a reset allowed, and the whole seconds left of the window, at least one |
| `RateLimit.Limiter.HandleAll` | aoi-admin/internal/middleware/ratelimit.go:44-67 | the decisions on a stream of requests |
| `RateLimit.WithinWindow` | aoi-admin/internal/middleware/ratelimit.go:50-56 | requests up to the reset use up what the window has left, at most the limit |
| `RateLimit.FirstOnesPass` | aoi-admin/internal/middleware/ratelimit.go:50-56 | a request that opens a window: of the requests up to one window length later exactly the first ones pass, as many as the limit |
| `RateLimit.RoomDecides` | aoi-admin/internal/middleware/ratelimit.go:50-56 | up to its reset an open window lets through exactly the requests that it has room for |
| `RateLimit.StretchBound` | aoi-admin/internal/middleware/ratelimit.go:50-56 | in any closed stretch of one window length fewer than twice the limit are allowed |
| `RateLimit.StretchBoundIsReached` | aoi-admin/internal/middleware/ratelimit.go:50-56 | that bound is exact |
| `RateLimit.KeysAreIndependent` | aoi-admin/internal/middleware/ratelimit.go:41-56 | the decisions under a key are those on its own requests alone |
| `RateLimit.TrafficBound` | aoi-admin/internal/middleware/ratelimit.go:41-56 | the bound for any key in any mixed traffic |
| `PromptAnswers.WildcardPatternRank` | aoi-admin/pkg/cli/chain.go:257-268 | literal and wildcard characters, which make up the pattern |
| `PromptAnswers.BeforeIsStrictTotal` | aoi-admin/pkg/cli/chain.go:232-242 | the comparison is a strict total order on patterns |
| `PromptAnswers.SortIsSorted` | aoi-admin/pkg/cli/chain.go:232-242 | the sorted list is in order and a permutation |
| `PromptAnswers.WildcardPromptAnswer` | aoi-admin/pkg/cli/chain.go:218-250 | the answer of the best-ranked matching pattern, or none when nothing matches |
| `PromptAnswers.AnswerIsUnique` | aoi-admin/pkg/cli/chain.go:218-250 | there is one such answer |
| `PromptAnswers.AnswerOutranks` | aoi-admin/pkg/cli/chain.go:232-268 | the pattern that answers has more characters outside the wildcards than any other that matches, or as many and fewer wildcards, or as many of both and comes first where the texts part |
| `PromptAnswers.TriedExactly` | aoi-admin/pkg/cli/chain.go:222-231 | a key of the map is tried as a pattern exactly if it holds a star, a question mark or an open bracket |
| `PromptAnswers.TwoOrdersOneAnswer` | aoi-admin/pkg/cli/chain.go:222-231 | the answer does not depend on the order of the map |
| `PromptAnswers.PromptAnswer` | aoi-admin/pkg/cli/chain.go:129-138 | the exact key beats any wildcard, and a wildcard beats the enclosing prompt |
| `PromptAnswers.ExtractChainArgs` | aoi-admin/pkg/cli/chain.go:147-183 | the loop tells answers from other arguments, or returns the usage error |
| `PromptAnswers.ExtractOnce` | aoi-admin/pkg/cli/chain.go:147-183 | what is left holds no more answers: extracting again changes nothing |
| `PromptAnswers.RenderedRoundTrip` | aoi-admin/pkg/cli/chain.go:147-183 | plain arguments and answers with `=` or with a space, in any mix, are told apart again, the last answer per key winning |
| `PromptAnswers.SeparatorEndsAnswers` | aoi-admin/pkg/cli/chain.go:147-183 | behind two dashes everything is left as it is |
| `PromptAnswers.BadAnswerFails` | aoi-admin/pkg/cli/chain.go:147-183 | an answer without a key, or without a value, anywhere before that is the usage error |

## Left out

- Reading and writing files: the file is a tree that is read or replaced in one step; dotenv files, file watching, permissions and the preservation of file identity are not modelled.
- YAML syntax: styles, comments, anchors, aliases and documents are not modelled; a node has a kind, a tag, a text and children, and parsing and printing go between such trees and heap nodes.
- Viper: keys with dots in them are not modelled, nor files in which one mapping holds two keys that fold alike, for which the loader's choice depends on a map's order.
- Paths into lists of structures: a path such as `executor.pools.0.size` names no field of the model and is an unknown key for the manager there, while the service writes it; that the writer puts it at that item is `YamlPaths.IndexedWrite`. Fields of floating-point or unsigned types are read but never written back.
- Copying of the snapshot: update functions are pure functions on values, so the sharing of slices and pointers between copies is not modelled.
- Field-by-field validation: the section validators are a parameter, with the assumption that they leave the named value as it is.
- YamlDocument.Build: starts from a tree, not from the text of a file; anchors and styles are not modelled.
- YamlDocument.Print: ends in a tree, not in text; comments and styles are not modelled.
- YamlDocument.ParseThenPrint: goes between trees and heap nodes for the same reason.
- ConfigRoundTrip.UpdateThenReload: is about values without placeholders and in validated form, and update functions that leave `env_override` alone. The condition on the path's text is on the inputs and exact, by the two theorems named above.
- ConfigRuns.CentralLawOnRuns: does not say that the reload is accepted; `ConfigKeeping.OnlyValidationTurnsDown` and `ConfigKeeping.RuntimeDecodesExactly` say what can turn it down.
- ConfigPersistence.PersistedValueStays: is about fields other than the list itself, which later updates change without asking for it.
- ConfigRuns.EveryRunKeepsInvariant: is about files, also after outside edits, in which no mapping holds two keys that fold alike and `disabled_paths` is missing or a list of strings without placeholders.
- ConfigLayers.RepeatedLoadKeepsFirstList: says what happens to the list; other settings of a second load are in the state model, and no law is stated about them.
- ConfigIsolation.LoadedSealedExactly: is about string fields set by strings and list fields set by lists of strings; what the loader's lenient conversions make of anything else is a parameter.
- ConfigIsolation.DisabledPathIgnoresEnvironment: is about a list of disabled paths that is written as a list of strings; other items go through the loader's lenient conversions.
- ConfigIsolation.LowerCasePathIgnoresEnvironment: has the same limit.
- ConfigErrors.ErrorIsTrue: the reason that an error names is there; where several reasons are, it does not say which of them is reported.
- Concurrent calls of `Update`: the manager holds a lock, and runs are sequences of whole operations.
- SqlColumnTrip.ColumnRoundTrip: is about MySQL and SQLite, types that come from the type mapping, and columns without default and comment; the default pattern of the parser runs on into a following comment. What default and comment print is in `SqlDefinitions`. Printing and parsing themselves cover all four dialects.
- SqlRoundTrip.TableRoundTrip: has the same limits.
- SqlRoundTrip.DistinctNamesRoundTrip: has the same limits.
- SqlScript.ScriptRoundTrip: has the same limits.
- SqlStatements.ParseCreateTable: does not compute struct name, imports, and the precision, scale, default and comment of columns; letter case is ASCII only.
- SQL beyond CREATE TABLE, ALTER TABLE and interpolation: queries, inserts, seeds, transactions, expression updates and code generation.
- SqlRanges.PrintedHoldsExactly: is about integers, on a machine of 64 bits; lengths of texts and precision of floating-point numbers are not compared.
- SqlInterpolate.ValueReadsBack: is about the kinds of values that are formatted by their own rule; a floating-point number and a value of any other kind come with the text that is printed for them.
- SqlInterpolate.OneByOneIsAllAtOnce: goes one way; outside the condition the two forms can still agree by chance.
- SqlMigration.RollbackRestores: asks each operation to be reversible when applied; a later operation can make up for an earlier one that is not. Columns are kept by name, so their position in the table is not restored or compared, and a dropped column leaves the indexes that use it, as MySQL does.
- Hybrid cache: an operation happens at one moment of time, values are strings, the store does not fail except in counter steps, a lifetime of -1 is not told apart from other negative ones, and the degraded mode without a store is not modelled.
- Executor: the worker pools themselves, panics and timeouts of tasks, and the waiting of a release for running tasks.
- RateLimit.TrafficBound: is about requests processed in the order of their times; two requests that read the clock before they take the lock can be processed in the other order.
- Prompt answers: pattern matching is a parameter; merging of answer maps, selection and confirmation prompts would only add easy members.
- The HTTP and RPC servers, the plugin host, authentication, mail, storage and database adapters, terminal rendering and the web interface.

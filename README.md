# opkg transaction engine, modelled in Dafny

This project models the orchestration layer of libopkg, the library behind the
opkg package manager (`libopkg/opkg.c`). In the source, the handle `struct _opkg_t` (opkg.c:36-41) holds the argument block, the configuration and the option table. The package hash lives inside the configuration, and the download filter's stored percentage is a function-static variable. The model's handle, `Engine.Opkg`, holds four things:

- a package hash, which is a vector of package records, each with a back-reference to its abstract (name-level) record;
- an option table;
- a configuration;
- a progress filter for downloads.

On top of these the handle offers the public transactions:

- batch configure;
- install, remove, upgrade and upgrade-all;
- package-list synchronisation from the configured feeds;
- setting an option;
- listing packages as public records.

Collaborators the engine calls are modelled as inputs of the operations. Their effects are not modelled, only what they return:

- the configure scripts, the install, remove and upgrade steps;
- the hash queries;
- downloads, decompression and signature checks;
- the filesystem.

Each collaborator supplies a result code, or the records it leaves behind, or a query answer constrained by a predicate. A trace of `Event`s records, in order:

- the calls into the fetch, pre-install check, install, remove, upgrade and configure steps;
- the downloads, decompressions and signature verifications;
- the status-file and file-list writes;
- every value handed to the caller's progress callback.

The hash queries and the filesystem checks (`file_is_dir`, `file_mkdir_hier`, `mkdtemp`, `fopen`) produce no event. They enter only as their answers: a query function, or the fields of `ListsDir` and `Fetch`.

Modules:

- `Packages`: package records (`Pkg`), abstract records, the hash (`Db`) and the `SF_PREFER` flag.
- `Trace`: events. `Progresses` extracts the progress values of a trace.
- `Configure`: the configure pass as a left fold (`ConfigureUpTo`), with its properties.
- `Progress`: the download progress filter, over natural byte counts and integer division.
- `Options`: the option table, its first-match lookup and the type-tagged store.
- `ListSync`: feed and signature URLs, progress slices per source, the events per source and the return code of a list sync.
- `PublicApi`: the public package record and the projection onto it.
- `Transactions`: install, remove, upgrade and upgrade-all as specification functions, with their properties.
- `Engine`: the class `Opkg`, the handle itself. Its methods change the records, the option table, the stored percentage and the trace step by step, as the library does. Each method is proved to end in the state the specification functions describe.

Several behaviours of the code are easy to misread. The model follows the code:

- Remove and upgrade ignore the code returned by the remove or upgrade step.
- Upgrade does not write the status files, and neither does upgrade-all (`UpgradeOutcome`, `UpgradeAllRecords`).
- Upgrade ignores the configure pass's code and returns 0 once a record was found (`UpgradeOutcome`).
- Remove's first lookup, the one its guards examine, is by name only, even when operations are restricted to the default destination. Remove therefore returns 1 when the first record of that name is NOT_INSTALLED, even if the default destination holds an installed one (`RemoveGuard`). Only the target handed to the remove step is scoped (`RemoveScoped`).
- Upgrade-all adds up the upgrade codes instead of testing each. Codes of mixed sign can therefore cancel (`UpgradeAllCodesCancel`). When the batch fails it returns 1, not the first error.
- The download filter suppresses a repeated *percentage*, not a repeated reported value, so the same value can be reported twice in a row (`RepeatedValueReported`).

## Model

| member | source | states |
|---|---|---|
| Configure.Visit | libopkg/opkg.c:63-85 | one pass of the loop: a record that passes the filter and is UNPACKED is configured; on 0 it becomes INSTALLED with SF_PREFER cleared and its abstract record INSTALLED; a failure keeps the first nonzero code; the records keep their number and the back-references stay in range |
| Configure.ConfigureUpTo | libopkg/opkg.c:52-89 | the records, code and configure calls once the loop has visited the first n records, with the records well formed throughout |
| Configure.ConfigureAll | libopkg/opkg.c:52-89 | opkg_configure_packages: the loop over the whole vector, starting from code 0 |
| Configure.ConfigureUpToPkg | libopkg/opkg.c:64-85 | after the first n records are visited, record k is configured (INSTALLED, SF_PREFER cleared) exactly when k < n, it passed the filter, it was UNPACKED and its configure step returned 0; otherwise it is unchanged |
| Configure.ConfigureUpToAbstract | libopkg/opkg.c:74-78 | an abstract record becomes INSTALLED exactly when some visited record pointing at it configured successfully, and is otherwise unchanged |
| Configure.ConfigureUpToErr | libopkg/opkg.c:58-88 | the code after n records is 0 iff every attempted configure among them returned 0, and otherwise the code of the first failing one in vector order |
| Configure.ConfigureUpToCalls | libopkg/opkg.c:64-72 | the configure calls made are exactly one per attempted record, in vector order, read off the records as they were before the pass |
| Configure.CallsAttempted | libopkg/opkg.c:67-72 | every call is made on an attempted record, and every attempted record is called |
| Configure.ConfigureAllCallsOnly | libopkg/opkg.c:62-86 | the pass calls only the configure step |
| Configure.ConfigureAllInstalls | libopkg/opkg.c:70-78 | an UNPACKED, matching record whose configure returned 0 ends INSTALLED with SF_PREFER clear, every other flag bit and field unchanged, and its parent INSTALLED |
| Configure.ConfigureAllLeavesOthers | libopkg/opkg.c:67-84 | a record that was not UNPACKED, failed the filter, or failed to configure is left exactly as it was |
| Configure.ConfigureAllError | libopkg/opkg.c:58-88 | the pass returns 0 iff every attempted configure returned 0, else the first nonzero code in vector order |
| Configure.ConfigureAllRerun | libopkg/opkg.c:52-89 | after a pass that returned 0, a second pass with the same filter changes nothing, calls nothing and returns 0, whatever the configure step would answer the second time |
| Engine.Opkg.ConfigurePackages | libopkg/opkg.c:52-89 | the loop leaves the records, the code and the calls that `ConfigureAll` describes |
| Progress.Percent | libopkg/opkg.c:107 | the download percentage now*100/total, and 0 while the total is 0 |
| Progress.Interpolate | libopkg/opkg.c:118-120 | the value handed to the callback: start_range plus now/total of the slice's width |
| Progress.CurlStep | libopkg/opkg.c:100-123 | one call of curl_progress_cb: a repeated percentage is dropped; otherwise it is stored, and reported unless the total is below 1 |
| Progress.FilterUpTo | libopkg/opkg.c:100-123 | the stored percentage and the values reported after the first n transport calls of one download |
| Progress.InterpolateWithin | libopkg/opkg.c:118-120 | for a known total and a byte count no larger than it, the reported value lies in [start_range, finish_range] |
| Progress.InterpolateMono | libopkg/opkg.c:118-120 | more bytes of the same total never report a smaller value |
| Progress.CurlStepSuppressesRepeats | libopkg/opkg.c:106-120 | a call stores its percentage; it reports iff its percentage differs from the stored one and the total is at least 1; when now <= total, the reported value lies in the slice |
| Progress.FilterUpToSane | libopkg/opkg.c:100-123 | over a well-behaved download the reported values never decrease, stay in the slice, and the last one reported comes from one of the calls |
| Progress.RepeatedValueReported | libopkg/opkg.c:108-120 | two calls with different percentages can report the same value twice in a row |
| Engine.Opkg.CurlProgress | libopkg/opkg.c:100-123 | one transport call updates the stored percentage and reports as `CurlStep` describes, and returns 0 |
| Engine.Opkg.DownloadWithProgress | libopkg/opkg.c:615 | every transport call of one download goes through the filter, in order |
| Options.Store | libopkg/opkg.c:320-335 | the store keeps the option's type; a boolean becomes 0 or 1 (1 iff the argument is nonzero); an integer or string is copied |
| Options.FirstIndex | libopkg/opkg.c:310-317 | the position of the first entry with the name, or none when no entry has it |
| Options.OptionIndex | libopkg/opkg.c:310-317 | the search loop stops at the first entry with the name |
| Options.GetOption | libopkg/opkg.c:253-293 | the lookup opkg_get_option is meant to perform: a value exactly when some entry has the name |
| Options.SetValue | libopkg/opkg.c:310-335 | the table after opkg_set_option: the first entry of that name holds the stored value, every other entry is as before |
| Options.SetThenGet | libopkg/opkg.c:296-336 | after setting an option, reading it back gives the stored value; every other option reads as before |
| Engine.Opkg.SetOption | libopkg/opkg.c:296-336 | the table after the call is `SetValue` of the table before it |
| Transactions.ListsDirPath | libopkg/opkg.c:543-546 | the lists directory of a list sync: the default destination's when operations are restricted to it, else the configured one |
| ListSync.FeedUrl | libopkg/opkg.c:592-596 | the list URL: `value/extra_data/` or `value/`, followed by `Packages.gz` or `Packages` |
| ListSync.SignatureUrl | libopkg/opkg.c:645-649 | the signature URL: `value/extra_data/Packages.sig` or `value/Packages.sig` |
| ListSync.Prepare | libopkg/opkg.c:548-574 | the temporary directory of the run, or none when the lists path exists and is not a directory, mkdir fails or mkdtemp fails |
| ListSync.FetchEvents | libopkg/opkg.c:592-634 | one list download: a compressed feed to a temporary file through the progress filter, decompressed when the download returned 0 and both files opened; a plain feed straight to the list file |
| ListSync.SignatureEvents | libopkg/opkg.c:642-681 | with GPG support, the signature download and, when it returned 0, the verification of the list; nothing otherwise |
| ListSync.SourceStep | libopkg/opkg.c:586-686 | one source: its list download, its signature steps, then progress 100*(done+1)/count |
| ListSync.SyncUpTo | libopkg/opkg.c:586-686 | the stored percentage and events after the first n sources |
| ListSync.UpdateLists | libopkg/opkg.c:541-692 | opkg_update_package_lists: progress 0, then 1 when preparation fails, else every source in turn and 0 |
| ListSync.FeedUrlLayout | libopkg/opkg.c:592-649 | the list URL is `value/extra_data/` or `value/`, followed by `Packages.gz` or `Packages`; the signature URL is the same directory followed by `Packages.sig` |
| ListSync.FeedUrlCompressed | libopkg/opkg.c:592-596 | the list URL ends in `.gz` iff the feed is compressed |
| ListSync.SourceRange | libopkg/opkg.c:612-613 | for done < count, 0 <= 100*done/count <= 100*(done+1)/count <= 100 |
| ListSync.RangesAdjoin | libopkg/opkg.c:612-685 | each source's slice starts where the previous one's ends |
| ListSync.LastSliceEnds | libopkg/opkg.c:684-685 | the last source's slice closes at 100 |
| ListSync.UpdateListsCode | libopkg/opkg.c:548-692 | the run returns 1 iff the lists path exists and is not a directory, or cannot be created, or mkdtemp fails; otherwise it returns 0, whatever the per-source results were |
| ListSync.SyncUpToDownloads | libopkg/opkg.c:586-634 | every source's list is downloaded from its feed URL, whatever happened to earlier sources |
| ListSync.UpdateListsDownloadsAll | libopkg/opkg.c:586-634 | a run that got past the preparation downloads every source's list |
| ListSync.FetchProgress | libopkg/opkg.c:599-634 | for a well-behaved transport (`SaneTicks` on a compressed feed), the progress values of one list download never decrease and stay in its slice |
| ListSync.SignatureNoProgress | libopkg/opkg.c:642-681 | the signature steps report no progress |
| ListSync.SourceStepProgress | libopkg/opkg.c:586-685 | for a well-behaved transport (`SaneTicks` on a compressed feed), the values of one source never decrease, stay in its slice, and end at the slice's end |
| ListSync.SyncUpToProgress | libopkg/opkg.c:586-686 | for well-behaved transports (`SaneFetches`), over the first n sources the values never decrease, stay in [0, end] and finish at the end of source n-1's slice |
| ListSync.UpdateListsProgress | libopkg/opkg.c:541-686 | for well-behaved transports (`SaneFetches`), a whole run starts at 0, never decreases, stays in [0, 100], and ends at 100 when any source was processed |
| Engine.Opkg.FetchList | libopkg/opkg.c:592-634 | the list download of one source produces the events and stored percentage `FetchEvents` describes |
| Engine.Opkg.FetchSignature | libopkg/opkg.c:642-681 | the signature steps of one source are those `SignatureEvents` describes |
| Engine.Opkg.SyncSource | libopkg/opkg.c:586-686 | one pass of the source loop is `SourceStep` |
| Engine.Opkg.CountSources | libopkg/opkg.c:576-584 | the counting loop yields the number of sources |
| Engine.Opkg.SyncSources | libopkg/opkg.c:586-686 | the source loop is `SyncUpTo` over all sources |
| Engine.Opkg.UpdatePackageLists | libopkg/opkg.c:530-693 | the method's code, stored percentage and events are those of `UpdateLists` |
| PublicApi.PackageNewWithValues | libopkg/opkg.c:140-157 | present fields are copied, absent ones stay absent, and `installed` is 1 iff the argument is nonzero (otherwise 0) |
| PublicApi.Project | libopkg/opkg.c:712-720 | the public record of a package has its name and descriptive fields, and `installed` is 1 iff the package is INSTALLED |
| Engine.Opkg.ListPackages | libopkg/opkg.c:696-728 | one public record per record of the vector, in order, with `installed` set iff the record is INSTALLED; returns 0 |
| Transactions.InstallHead | libopkg/opkg.c:349-370 | progress 0, the fetch of the package, progress 50, the pre-install check, then the single- or multiple-provider install call on the prepared id, or on the name when none was prepared |
| Transactions.Install | libopkg/opkg.c:341-388 | opkg_install_package: a failing install step ends the call with its code; otherwise progress 75 and the configure pass, whose failure ends the call with its code; otherwise both writes, progress 100 and 0 |
| Transactions.InstallHeadProgress | libopkg/opkg.c:349-370 | before the install step returns, the values reported are 0 and 50, and no status write happened |
| Transactions.InstallCode | libopkg/opkg.c:363-387 | a nonzero install-step code is returned at once with no configure call; otherwise the code is the configure pass's first failure code; install returns 0 iff the step returned 0 and every configure attempt returned 0 |
| Transactions.InstallEffects | libopkg/opkg.c:349-387 | status files and file lists are written iff install returns 0; the reported values are 0, 50, then 75, then 100, cut short where install stops, and never decrease |
| Transactions.InstallSettles | libopkg/opkg.c:372-387 | after a successful install no record is left UNPACKED: each record the install step left UNPACKED is INSTALLED |
| Engine.Opkg.InstallPrelude | libopkg/opkg.c:349-370 | the steps up to the install call, on the prepared id or else the name, as `InstallHead` lists them |
| Engine.Opkg.InstallPackage | libopkg/opkg.c:341-388 | the method's records, code and events are those of `Install` |
| Transactions.RemoveHead | libopkg/opkg.c:399-407 | progress 0, the pre-install check, progress 25 |
| Transactions.ScopedLookup | libopkg/opkg.c:462-477 | the record upgrade acts on, and the target remove hands on (opkg.c:425-434): the one in the default destination when restricted to it, else the one found by name |
| Transactions.Remove | libopkg/opkg.c:391-448 | opkg_remove_package: 1 when the lookup finds nothing or a NOT_INSTALLED record; otherwise progress 75 twice, the remove call on the re-looked-up target, both writes, progress 100 and 0 |
| Transactions.RemoveGuard | libopkg/opkg.c:409-447 | remove returns 1, leaves the records as they were and calls neither the remove step nor the status writers iff the lookup yields nothing or a NOT_INSTALLED record; otherwise it calls the remove step on the re-looked-up target, writes the status files, and returns 0 |
| Transactions.RemoveScoped | libopkg/opkg.c:425-439 | under the restriction the record removed is the one fetched for the default destination, and it has that name and destination; otherwise it is the record the guards examined |
| Transactions.RemoveProgress | libopkg/opkg.c:399-446 | the values reported are 0, 25 on refusal and 0, 25, 75, 75, 100 otherwise, never decreasing |
| Engine.Opkg.RemovePackage | libopkg/opkg.c:391-448 | the method's records, code and events are those of `Remove` |
| Transactions.Upgrade | libopkg/opkg.c:451-493 | opkg_upgrade_package: 1 when the lookup finds nothing; otherwise progress 25, the upgrade call, progress 75, the configure pass on the records the upgrade left, progress 100 and 0 |
| Transactions.UpgradeOutcome | libopkg/opkg.c:458-492 | upgrade returns 1, with the records untouched and no upgrade call, iff the lookup (in the default destination when restricted) finds nothing; otherwise it upgrades the record found and returns 0; it never writes status files |
| Transactions.UpgradeProgress | libopkg/opkg.c:458-492 | the values reported are 0 when the lookup finds nothing and 0, 25, 75, 100 otherwise, never decreasing; once found, the upgrade call precedes every configure call and the records are those configure-all leaves on the records the upgrade left |
| Engine.Opkg.UpgradeFound | libopkg/opkg.c:485-491 | the steps once a record is found, as `Upgrade` lists them |
| Engine.Opkg.UpgradePackage | libopkg/opkg.c:451-493 | the method's records, code and events are those of `Upgrade` |
| Transactions.UpgradeLoop | libopkg/opkg.c:510-515 | the first n rounds of the loop: the codes summed, and per round the upgrade call then progress 100*i/len; two events per round |
| Transactions.AfterUpgrades | libopkg/opkg.c:510-516 | the records after the loop: those the last upgrade left, or those before it when nothing is installed |
| Transactions.UpgradeAll | libopkg/opkg.c:496-527 | opkg_upgrade_all: progress 0, the pre-install check, the loop; 1 when the sum is nonzero; otherwise the configure pass, whose failure gives 1; otherwise progress 100 and 0 |
| Transactions.UpgradeLoopRounds | libopkg/opkg.c:510-515 | round i calls the upgrade step for installed[i], then reports 100*i/len, for every i, whatever earlier rounds returned; the accumulated error is the sum of the codes |
| Transactions.UpgradeAllOutcome | libopkg/opkg.c:518-526 | upgrade-all returns 0 or 1, and 0 iff the codes sum to 0 and the configure pass succeeded; when no code is negative, one failed upgrade gives 1 with no configure call |
| Transactions.UpgradeLoopProgress | libopkg/opkg.c:514 | the loop's values are 100*i/len, each in [0, 100), never decreasing |
| Transactions.UpgradeAllProgress | libopkg/opkg.c:504-525 | a whole run reports 0, then 100*i/len after round i, then 100 only when it returns 0; the values never decrease and stay in [0, 100] |
| Transactions.UpgradeAllRecords | libopkg/opkg.c:510-522 | round r's upgrade call is on installed[r], every upgrade call precedes every configure call, the records after the call are those the last upgrade left, put through configure-all when the codes sum to 0, and neither the status files nor the file lists are written |
| Transactions.UpgradeAllCodesCancel | libopkg/opkg.c:513-519 | codes 1 and -1 cancel and the batch reports success |
| Engine.Opkg.UpgradeEach | libopkg/opkg.c:510-516 | the loop's error, events and final records are those of `UpgradeLoop` and the last upgrade |
| Engine.Opkg.UpgradeAll | libopkg/opkg.c:496-527 | the method's records, code and events are those of `UpgradeAll` |

## Left out

- Filesystem and process I/O is not modelled. `file_is_dir`, `file_mkdir_hier`, `mkdtemp` and `fopen` appear only as outcomes in `ListsDir` or `Fetch`. `unzip` appears as its `Unzip` event. Removing the temporary files and directory (`unlink` at opkg.c:630 and 674, `rmdir` at 688) is not modelled.
- `opkg_download` and `opkg_verify_file` are foreign calls. A download appears as its return code (`Fetch.code` for the list, `Fetch.sigCode` for the signature) and as the transport's progress calls (`Tick`). A verification appears only as its `Verify` event: the source only comments on its result, and the model does not carry it. The fetched bytes are not modelled.
- `fnmatch` is not modelled: the filter carries its verdict as a predicate on names.
- The download filter works over natural byte counts with integer division. The source's floating-point arithmetic is not modelled, and neither is a negative or fractional byte count.
- `curl_progress_cb`'s `prev` is a static variable shared by the whole process. Here it is a field of the handle.
- The null-callback check of the `progress` macro (opkg.c:47) is not modelled: the callback is always present, and every value it would receive is in the trace. This hides one behaviour of the source, read off the code and not executed. `curl_progress_cb` calls `cb_data->cb` with no check (opkg.c:118), and `cb_data.cb` is the caller's callback (opkg.c:609). So a NULL callback passed to `opkg_update_package_lists` is still called during a compressed feed's download.
- The `opkg_assert` checks (opkg.c:43-45), which abort on a NULL handle, name or value, are not modelled. The model has no pointers, so none of those arguments can be NULL.
- `opkg_get_option` is not modelled: its search loop never advances past a matching entry, so it does not terminate once it finds the option. `Options.GetOption` states the lookup it is meant to perform.
- `Engine.Opkg.SetOption` requires the option to exist. When none matches, the search loop stops on the table's terminating entry, and the store then acts on that entry's own type and value pointer. What that entry holds is set up by `opkg_init_options_array`, which is not part of this model, so that case is not modelled.
- Engine.Opkg.SetOption / Options.SetThenGet: each entry of the option table holds its own value. In the source, `opkg_init_options_array` builds the table from the configuration (opkg.c:183, 248), and the store writes through each entry's pointer into `opkg_conf_t`. Two effects of this are not modelled. A set does not change the configuration (`Engine.Opkg.conf`, a constant) that later operations read, for example `multipleProviders` or the default-destination restriction. And two entries pointing at the same setting are not modelled: "every other option reads as before" holds only because each entry has its own storage.
- `opkg_new`, `opkg_free`, `opkg_read_config_files`, `opkg_package_new` and `opkg_package_free` are not modelled. They allocate, initialise or tear down state. The constructor of `Engine.Opkg` builds a handle from given records and options.
- Memory management is not modelled: malloc, strdup, free and the pkg_vec buffers.
- `pkg_hash_fetch_all_installed` in remove is not modelled: its result is never used. In upgrade-all, the installed records it yields are an input of the operation.
- The internal effects of the install, remove and upgrade steps and of the hash queries are not modelled. pkg.h and pkg_hash.c are not part of this model. The records a step leaves behind are an input (`Delegate`); a query's answer is a function constrained by `NameQuery` or `DestQuery`.
- The value of SF_PREFER (16) is taken from pkg.h, which is not part of this model. Only bit clearing depends on it.
- Integer codes are unbounded. A 32-bit overflow of upgrade-all's sum is not modelled.
- A NULL remove target is passed on as `None` in the `RemovePkg` event. What the remove step does with it is not modelled.
- libopkg/libopkg.h holds only declarations and is not modelled.
- The package callback of `opkg_list_packages` is not modelled as a call. `Engine.Opkg.ListPackages` returns the sequence of records it would receive, and the caller's `user_data` is not modelled.
- Transactions.UpgradeAllOutcome: "one failed upgrade gives 1 without configuring" is stated only when no code is negative. The source adds the codes, and a negative code can cancel a positive one (`UpgradeAllCodesCancel`).
- Progress.FilterUpToSane: monotonicity is proved only for a well-behaved transport (`SaneTicks`). For byte counts that shrink, or a total that changes mid-download, there is no such promise.
- ListSync.FetchProgress, ListSync.SourceStepProgress, ListSync.SyncUpToProgress, ListSync.UpdateListsProgress: the climb within each slice is proved only for well-behaved transports (`SaneTicks`, `SaneFetches`). The source's arithmetic gives no such promise otherwise: a byte count above the total reports a value beyond the slice, and a total that changes mid-download can report a smaller value.
- Progress.CurlStepSuppressesRepeats: the slice bound is stated only when the byte count does not exceed the total. Beyond it, the value reported lies past the slice's end.

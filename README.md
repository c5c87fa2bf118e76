# autoChangHySite: a verified model of the masquerade-URL rotation logic

`autoChangHySite.py` is run once a day by cron. It rotates the masquerade URL of a
Hysteria 2 proxy server. First it geolocates the host. It then picks a URL at random
from a pool for the host's region and writes that URL to `masquerade.proxy.url` in
`/etc/hysteria/config.yaml`. Finally it restarts `hysteria-server.service`, through
`sudo` when it is not root.

This project models the part of the script that is logic and not I/O. The Dafny
modules are:

- `Merge`: `merge_unique`. It merges several lists, drops duplicates and keeps each
  element at the place it first occurs. `MergeUnique` is the nested loop with its
  `seen` set and `merged` list. `Merged` is the function it is proved against.
  Lemmas about `Merged` cover no duplicates, coverage, subset of the union,
  first-occurrence order, prefix, append, idempotence and length.
- `UrlPools`: the URL tables and `url_mapping`, which maps each of `sg`, `us` and
  `jp` to the merge of the region's list with the resistant list. It also holds the
  lower-cased lookup with the `["https://bing.com"]` fallback, the country code that
  `get_server_country` returns for a given lookup reply, and `random.choice` as a
  nondeterministic pick.
- `OrderedDict`: a Python dict as an association list in insertion order, with
  `setdefault` and item assignment.
- `Config`: the parsed YAML document as a tree (`Node`) and the rewrite that
  `update_config` performs. `Rewrite` covers the `or {}` default, the root check, the
  creation of `masquerade` and `masquerade.proxy` when they are absent, and the
  overwrite of `url`.
- `Service`: the `sudo` prefix rule and the `systemctl restart` command.
- `Wrappers`: `Option` and `Result`.
- `Rotate`: `update_config` and the script's main block, which chain the parts above.

Two behaviours of the code that the model keeps:

- The code reads the document as `yaml.safe_load(file) or {}`. Every false document
  (an empty list, `0`, `false` or `""` as well as null or an empty mapping) therefore
  becomes `{}` and is rewritten. Only a true non-mapping root (a non-empty list, a
  non-empty string, a non-zero number, `true`) fails the root check.
- The code uses `setdefault` and item assignment without checking types.
  `masquerade` or `masquerade.proxy` can be present with a value that is not a
  mapping, for example null or a string. In that case Python raises inside
  `update_config` before anything is written, and the run exits with status 1. The
  model reports this as its own error (`MasqueradeNotMapping`, `ProxyNotMapping`).

## Model

| member | source | states |
|---|---|---|
| Merge.MergeUnique | autoChangHySite.py:16-25 | the nested loop over `seen` and `merged` returns `Merged(lists)`, with no duplicates, containing every element of every input list and nothing from outside them |
| Merge.MergedNoDuplicates | autoChangHySite.py:18-24 | an item is appended only when it is not yet seen, so the merge holds no element twice |
| Merge.MergedMembers | autoChangHySite.py:20-24 | x is in the merge exactly when x is in one of the input lists (coverage and subset of the union) |
| Merge.MergedFirstOccurrenceOrder | autoChangHySite.py:16-25 | the merge orders its elements by the position where each first occurs in the concatenated inputs |
| Merge.DedupFirstOccurrenceOrder | autoChangHySite.py:20-24 | one pass of appending unseen items keeps first occurrences in order of first appearance |
| Merge.MergedStartsWithFirst | autoChangHySite.py:16-25 | when the first list has no duplicates, the merge starts with exactly that list |
| Merge.MergedAppendList | autoChangHySite.py:20-24 | one more list only appends its elements not merged yet, once each, in their order of first occurrence in it |
| Merge.AddNewIsWithout | autoChangHySite.py:21-24 | the inner loop over one list appends exactly the deduplicated unseen elements of that list to what was merged before |
| Merge.MergedIdempotent | autoChangHySite.py:16-25 | merging a merged list again gives it back unchanged |
| Merge.MergedLength | autoChangHySite.py:18-25 | the merge is no longer than all input lists together |
| UrlPools.PoolsWellFormed | autoChangHySite.py:170-174 | url_mapping has exactly the keys sg, us and jp; each pool is non-empty and duplicate-free, holds every resistant site and every site of its region list, and nothing else |
| UrlPools.MergedRegionPool | autoChangHySite.py:170-174 | merging a non-empty region list with the resistant list gives a well-formed region pool |
| UrlPools.SelectPool | autoChangHySite.py:206 | the selected pool is non-empty and duplicate-free; a code that lower-cases to sg, us or jp gets a pool holding exactly that region's own sites and the resistant sites, each once; any other code gets exactly `["https://bing.com"]` |
| UrlPools.SelectPoolByRegion | autoChangHySite.py:206 | a code that lower-cases to sg, us or jp selects that region's list merged with the resistant list, so its sites appear in order of first occurrence in the region list followed by the resistant list |
| UrlPools.CountryCode | autoChangHySite.py:29-37 | a reply carrying `countryCode` yields that code; the result differs from "US" only when the reply carries a `countryCode` |
| UrlPools.SelectPoolIgnoresCase | autoChangHySite.py:206 | the selected pool for a code is the same as for its lower-cased form |
| UrlPools.GeolocationFailureSelectsUs | autoChangHySite.py:29-37 | a failed geolocation, or a reply without `countryCode`, yields "US", which selects the US pool |
| UrlPools.SingaporeSelectsSgPool | autoChangHySite.py:206 | the code "SG" reported by the lookup selects the Singapore list merged with the resistant list |
| UrlPools.ChooseUrl | autoChangHySite.py:251 | random.choice returns a member of the pool, and fails exactly when the pool is empty |
| OrderedDict.SetItem | autoChangHySite.py:261 | after `d[k] = v`, d.get(k) is v; every other key keeps its value and position; a new key is appended at the end |
| OrderedDict.SetDefault | autoChangHySite.py:259-260 | setdefault returns the value now under k; it leaves the dict unchanged when k is present and appends (k, default) otherwise |
| OrderedDict.SetItemTwice | autoChangHySite.py:261 | assigning a key twice is the same as assigning it once with the second value |
| OrderedDict.GetAfterSetItem | autoChangHySite.py:261 | assigning a key does not change the lookup of any other key |
| OrderedDict.SetItemUniqueKeys | autoChangHySite.py:261 | item assignment keeps keys unique |
| OrderedDict.SetDefaultUniqueKeys | autoChangHySite.py:259-260 | setdefault keeps keys unique |
| OrderedDict.SetDefaultThenSetItem | autoChangHySite.py:259-261 | setdefault followed by assignment to the same key changes only that key and appends it when it was missing |
| Config.Rewrite | autoChangHySite.py:254-261 | a false document becomes `{masquerade: {proxy: {url}}}`; each error case (root, masquerade or proxy not a mapping) occurs exactly under its condition, before any write; on success masquerade.proxy.url is the URL, and every other key at the root, under masquerade and under proxy keeps its value and position, with missing keys appended at the end |
| Config.RewriteLastWins | autoChangHySite.py:259-264 | rewriting an already rewritten document with a second URL gives the same document as rewriting the original with that URL |
| Config.RewriteKeepsKeysUnique | autoChangHySite.py:259-261 | if the root, masquerade and proxy mappings have unique keys, they still do after the rewrite |
| Service.Privileged | autoChangHySite.py:238-240 | a command is prefixed with exactly one "sudo" when the effective uid is not 0, and is left as it is otherwise |
| Service.RestartCommandElevatesExactlyWhenNotRoot | autoChangHySite.py:238-240 | the restart command starts with sudo if and only if the uid is not 0, and always ends with `systemctl restart hysteria-server.service` |
| Rotate.UpdateConfig | autoChangHySite.py:248-269 | the run aborts on an empty pool exactly when the pool is empty; otherwise it writes exactly when the document is rewritable; the written document is the rewrite with a URL from the pool, that URL is at masquerade.proxy.url and no other key on the path changes; the restart command follows the uid rule; a rejected document is rejected for every URL |
| Rotate.Run | autoChangHySite.py:205-206 | a run never fails for lack of a URL and aborts only on a rejected document; it writes exactly when the document is rewritable; the written document is the rewrite of the input with a URL from the pool selected for the geolocated country, that URL is at masquerade.proxy.url, no other key at the root, under masquerade or under proxy changes, and the restart command follows the uid rule |

## Left out

- Geolocation (`curl` to ip-api.com and `json.loads`) is network I/O. The model takes its outcome as a parameter: the parsed object, or None for any failure. A `countryCode` value that is not a string is not modelled.
- The PyYAML bootstrap through `apt-get` (lines 177-203) is package-manager I/O and is not modelled. The same `sudo` rule at line 187 is `Service.Privileged`.
- Creating the log directory and file, `chown`, `chmod` and the `logging` setup and messages are filesystem side effects and are not modelled. A failure there exits with status 1 before `update_config` runs (lines 211-226).
- Running `systemctl` and logging its failure are process calls. Only the command list is modelled. A failed restart does not undo the write, so it does not change the outcome the model reports.
- `yaml.safe_load` and `yaml.safe_dump` are library code. The document is modelled as an already-parsed `Node`, and its serialisation as the order of the association list.
- Config.Node: only null, booleans, integers, strings, lists and string-keyed mappings are modelled. Floats, timestamps, binary values, sets and non-string keys are not.
- Config.Rewrite works on values. PyYAML can parse anchors and aliases into one dict shared by several places in the document. In Python, assigning `url` in place is then visible at every alias. The value model rewrites only the path `masquerade.proxy`.
- Writing the file in place, its atomicity and overlapping runs are I/O and concurrency, and are not modelled.
- UrlPools.ChooseUrl returns some member of the pool. The uniform distribution of `random.choice` is not modelled.
- UrlPools.Lower lower-cases ASCII letters only, while Python's `str.lower` is Unicode-aware. Only `S`, `G`, `U`, `J` and `P` lower-case to the letters of the region keys, so the pool selected is the same for every input.
- The process exit status and console messages are not modelled. An `Aborted` outcome corresponds to exit status 1, but exit status 1 has other causes the model does not report:
  - failing to open, read or parse the configuration file (lines 253-254);
  - failing to write it (lines 263-264);
  - a restart that raises anything other than `CalledProcessError`, such as a missing `sudo` or `systemctl` binary (line 244). The file has then already been written, and the model reports `Written`.
- Config.Node: a mapping may hold a key twice, which `yaml.safe_load` never returns. For such a value the model's lookup takes the first entry, while PyYAML keeps the last one. `Config.RewriteKeepsKeysUnique` shows that the rewrite keeps documents with unique keys in that real domain.

# SimplyPrint filament dashboard: a Dafny model of its client and filter panel

This project models the pure logic of a small Streamlit dashboard that lists
the filament spools of a SimplyPrint account. The dashboard has two pieces
of logic.

- **The SimplyPrint client** (`src/simplyprint.py`) has four parts:
  - two record parsers, `SimplyPrintFilament.parse` and `SimplyPrintMaterial.parse`;
  - the URL joiner `_join_url`;
  - the ordered response checks of `_get`: transport, HTTP status, JSON
    decoding, then the vendor's `status: false` envelope;
  - the collection builders `get_filaments` and `get_materials`. Each returns
    a dict keyed by record id, or fails as a whole.
- **The page** (`src/page.py`) has three parts:
  - the faceted filter panel of `_render_materials`: brand, material type and
    filament type name, with options, pruning, filtering and an "active" flag;
  - the restriction of spools to the filtered materials in `render`;
  - the grid of `_render_filaments`, three cells per row, where a spool whose
    material is unknown becomes a warning cell.

Modules, one per file:

| module | file | what it holds |
|---|---|---|
| `Wrappers` | wrappers.dfy | `Option` and `Result` |
| `Payload` | payload.dfy | decoded JSON (`Json`), `dict.get`, Python truthiness, dict-key hashing (`KeyOf`), iteration (`Iterate`) |
| `Text` | text.dfy | string order, `sorted` insertion, `strip`/`rstrip` of '/', decimal rendering |
| `Seqs` | seqs.dfy | order-preserving filter, flatten and chunking |
| `Dicts` | dicts.dfy | insertion-ordered dicts (`d[k] = v`, `d.get(k)`, building a dict from a sequence of entries) |
| `Records` | records.dfy | `Filament`, `Material`, their parsers and encoders |
| `Urls` | url.dfy | `_join_url` and the request URL |
| `Client` | client.dfy | outcomes, errors, `_get`'s checks, the collection builders |
| `Scenarios` | scenarios.dfy | concrete sample responses and what the client makes of them |
| `Page` | page.dfy | the filter panel, the restriction, the grid, the fetch order |

Modelling choices:

- JSON objects keep their member order, as Python dicts do.
- A record field holds whatever JSON value the payload had under its key. The
  parsers check no types, and neither does the model.
- Dict keys are compared as Python compares them. `True`, `1` and `1.0` are
  one key (`Payload.Key`). A list or dict cannot be a key: Python raises
  TypeError, and the model says `None`.
- Python exceptions other than `SimplyPrintError` become one error, `Fault`.
  They arise when a value has an unexpected type (AttributeError, TypeError):
  - a payload that is not a dict;
  - a `type` or `brand` that is neither null nor a dict;
  - an unhashable id;
  - a `data` field that cannot be iterated.
- The HTTP request is an `Outcome` given as input, and so is the result of
  decoding the body.
- The code raises a `SimplyPrintError` for a shape problem only when the
  `filament` or `data` field is missing or null, or when an entry's id is
  null. A payload or collection of the wrong type raises AttributeError or
  TypeError instead. The model calls that case `Fault`, which `render` does
  not catch.

## Model

| member | source | states |
|---|---|---|
| `Records.ParseFilament` | src/simplyprint.py:30-43 | parsing fails only when the payload is not a dict, or when its `type` is neither null nor a dict; the eight plain keys are copied verbatim (a missing key reads as null); `materialId` is `type.id` when `type` is a dict and 0 when it is absent; the nested lookup is `Records.NestedOr` |
| `Records.ParseMaterial` | src/simplyprint.py:54-63 | parsing fails only when the payload is not a dict, or when its `brand` is neither null nor a dict; the four plain keys are copied verbatim; `brand` is `brand.name` when `brand` is a dict and "" when it is absent; the nested lookup is `Records.NestedOr` |
| `Records.FilamentRoundTrip` | src/simplyprint.py:30-43 | encoding any spool as a payload and parsing it back gives the same spool |
| `Records.MaterialRoundTrip` | src/simplyprint.py:54-63 | encoding any material as a payload and parsing it back gives the same material |
| `Records.EmptyPayloadsParse` | src/simplyprint.py:31-32 | an empty dict parses to all-null fields, with the defaults material 0 and brand "" |
| `Payload.GetMissing` | src/simplyprint.py:35-43 | `Payload.Get`, the model of `dict.get`, reads a key the payload lacks as null |
| `Payload.GetFirst` | src/simplyprint.py:35-43 | `Payload.Get` returns the value of the first member carrying the name |
| `Payload.KeysMatchEquality` | src/simplyprint.py:128 | two hashable values land on the same dict key (`Payload.KeyOf`) exactly when Python's `==` holds between them: null only with null, a string only with the same string, and bools and numbers by numeric value; `Payload.KeyOf` refuses lists and dicts (TypeError) |
| `Payload.OneKeyForTrueAndOne` | src/simplyprint.py:128 | `True`, `1` and `1.0` are one dict key, and the string "1" is another |
| `Text.RStrip` | src/simplyprint.py:68 | the result is a prefix of the input that does not end in '/', and only '/' follow it |
| `Text.Strip` | src/simplyprint.py:78 | the result is the part of the input between its leading and trailing runs of '/', and neither starts nor ends in '/' |
| `Urls.MergeLastSlash` | src/simplyprint.py:78 | `Urls.Merge` keeps the base up to and including its last '/' and appends the reference, or keeps nothing when the base has no '/'; `_join_url` merges only against URLs ending in '/', where the whole base is kept |
| `Urls.ResolveSegments` | src/simplyprint.py:75-78 | resolving each stripped segment plus '/' against the URL built so far appends `/segment` each time |
| `Urls.JoinUrl` | src/simplyprint.py:74-83 | for a web base and plain segments, the URL is the base without trailing '/' followed by `/segment` for each stripped segment; it ends in '/' exactly when a trailing slash is asked for; each step resolves with `Urls.Merge` |
| `Urls.RequestUrl` | src/simplyprint.py:85-86 | the URL `_get` requests is `base/company/endpoint` with every part stripped of its outer '/' and no trailing '/' |
| `Urls.EndpointsPlain` | src/simplyprint.py:116-133 | the two endpoint paths `_get` is called with are plain segments, so the request URL is as stated for both |
| `Text.Decimal` | src/simplyprint.py:100 | `str(status_code)` is a non-empty run of decimal digits that starts with '0' only for 0 |
| `Text.DecimalRoundTrip` | src/simplyprint.py:100 | the decimal rendering of a status code reads back as that code |
| `Client.Message` | src/simplyprint.py:92-111 | every `SimplyPrintError` has a message (`Fault` has none); a status error's message is the fixed prefix followed by digits that read back as the code; a vendor message that is a string is shown as is |
| `Client.Validate` | src/simplyprint.py:92-113 | the outcome passes exactly when no check fails, and then the payload is returned unchanged; otherwise the error is that of the first failing check in the order transport, status, decoding, envelope; the envelope check (`Client.ErrorEnvelope`) fires only for a dict whose `status` is the boolean false; the envelope detail is `message` when truthy and otherwise the fixed fallback; `message` is used when `Payload.Truthy`, which models Python truthiness |
| `Client.Entries` | src/simplyprint.py:124-128 | parsing succeeds exactly when every item does; the pairs come out in item order; otherwise the error is that of the first failing item |
| `Client.BuildIndex` | src/simplyprint.py:122-130 | a build succeeds exactly when every item parses; the dict's keys are distinct and are exactly the items' keys; otherwise the first failing item's error is returned, with no partial dict |
| `Client.BuildIndexLastWrite` | src/simplyprint.py:124-128 | the record stored under each key is the record of the last item that carries the key |
| `Client.BuildIndexIndexes` | src/simplyprint.py:122-130 | a successful build holds exactly the items' keys, and under each the record of the last item carrying it |
| `Client.CheckFilament` | src/simplyprint.py:125-128 | an entry is accepted exactly when it parses and its id is neither null nor unhashable; a null id is the filament-payload error; the key is the id's key |
| `Client.CheckMaterial` | src/simplyprint.py:142-145 | an entry is accepted exactly when it parses and its id is neither null nor unhashable; a null id is the material-payload error; the key is the id's key |
| `Client.FilamentItems` | src/simplyprint.py:116-124 | the entries are the values of the `filament` dict; a missing or null `filament` is the format error; any other non-dict is a `Fault`; `Dicts.Values` is `.values()` in insertion order |
| `Client.MaterialItems` | src/simplyprint.py:133-141 | the entries are what iterating `data` yields; a missing or null `data` is the format error; what iteration yields is `Payload.Iterate`: a list's elements, a dict's keys, a string's characters, and a `Fault` for null, bools and numbers |
| `Client.GetFilaments` | src/simplyprint.py:115-130 | a validation error is returned as is; otherwise the call succeeds exactly when the collection exists and every entry is accepted; when the collection exists the result is the build over its values, so the first rejected entry's error is returned; on success the dict is `Client.IndexesItems` the entries: its keys are exactly the accepted ids, each spool is stored under its own id, and a later entry with the same id overwrites an earlier one |
| `Client.GetMaterials` | src/simplyprint.py:132-147 | a validation error is returned as is; otherwise the call succeeds exactly when `data` is iterable and every entry is accepted; when `data` is iterable the result is the build over its items, so the first rejected entry's error is returned; on success the dict is `Client.IndexesItems` the entries: its keys are exactly the accepted ids, each material is stored under its own id, and a later entry with the same id overwrites an earlier one |
| `Scenarios.ServerErrorReportsCode` | src/simplyprint.py:99-100 | an HTTP 500 fails both calls with a status error whose message ends in "500" |
| `Scenarios.ApplicationErrorCarriesMessage` | src/simplyprint.py:107-111 | `{"status": false, "message": "token expired"}` fails both calls with the message "token expired" |
| `Scenarios.ApplicationErrorFallback` | src/simplyprint.py:110-111 | a `status: false` envelope with a falsy message reports the fixed fallback text |
| `Scenarios.ZeroStatusIsNoError` | src/simplyprint.py:107-113 | a `status` of 0, and a payload that is not a dict, pass through unchanged |
| `Scenarios.SpoolChecks` | src/simplyprint.py:30-43 | the sample spool payload parses to id 1 with material 7 |
| `Scenarios.OneSpool` | src/simplyprint.py:115-130 | a body holding the sample spool gives a one-entry dict keyed 1 whose spool has material 7 |
| `Scenarios.MaterialChecks` | src/simplyprint.py:54-63 | the sample material payload parses to id 7 with brand "Acme" taken from its nested `brand` dict |
| `Scenarios.OneMaterial` | src/simplyprint.py:132-147 | a body holding the sample material gives a one-entry dict keyed 7 whose brand is "Acme" |
| `Scenarios.MissingIdFailsAll` | src/simplyprint.py:141-145 | an entry without an id after a good entry fails the whole call |
| `Scenarios.DuplicateIdsLastWins` | src/simplyprint.py:139-147 | two materials with the same id leave one entry, the later material |
| `Dicts.Put` | src/simplyprint.py:128 | `d[k] = v` keeps keys distinct, adds `k`, keeps an existing key in its place or appends a new one at the end, and `k` then maps to `v` |
| `Dicts.FromEntries` | src/simplyprint.py:122-128 | assigning the entries in turn gives a dict with distinct keys whose key set is the entries' key set |
| `Dicts.FromEntriesLastWrite` | src/simplyprint.py:124-128 | each key ends up with the value of its last entry |
| `Dicts.Find` | src/page.py:100 | `get` finds nothing exactly when the key is absent, and otherwise a value stored under the key |
| `Text.Insert` | src/page.py:42-46 | inserting into a strictly sorted list keeps it strictly sorted and adds exactly the new value; the order is `Text.Below`, Python's `<` on str |
| `Page.Options` | src/page.py:42-56 | a facet's options are strictly sorted; a value is offered exactly when it is non-empty and some material has it and passes the other two facets' selections; `Page.PassesOthers` is `not selected or value in selected` (`Page.Admits`) for the other two facets, and the order is `Text.Below`, Python's `<` on str |
| `Page.Available` | src/page.py:42-56 | the three option lists are sorted, hold no "", and offer exactly the values of materials that pass the other facets |
| `Page.Prune` | src/page.py:58-67 | a pruned selection is the order-preserving subsequence of the selection whose values are offered, with every kept value's multiplicity unchanged; the comprehension is `Seqs.Filter` |
| `Page.Pruned` | src/page.py:58-67 | each facet's pruned selection is a subsequence of the stored one, holds no "", and keeps every stored copy of a value that is offered and no copy of one that is not |
| `Page.FilterMaterials` | src/page.py:85-90 | the filtered list is an order-preserving subsequence of the materials, keeps every copy of a material that passes every facet and no copy of one that fails, and with nothing selected is the whole list; `Page.Passes` is the three `not selected or value in selected` tests of lines 87-89; the comprehension is `Seqs.Filter` |
| `Page.ActiveIffSelected` | src/page.py:91 | `filters_active` (`Page.FiltersActive`) is false exactly when all three selections are empty |
| `Page.RenderMaterials` | src/page.py:33-92 | the panel filters by the pruned selections; it is active exactly when one of them is non-empty; when inactive, the full material list comes back |
| `Page.AdmitsPruned` | src/page.py:42-67 | a material admitted by a facet's stored selection and by the other two facets is admitted by that facet's pruned selection |
| `Page.PassesPruned` | src/page.py:42-67 | a material that passes the stored selections passes the pruned ones |
| `Page.PrunedWitness` | src/page.py:42-67 | every value left in a pruned selection belongs to a material that passes all the pruned selections |
| `Page.PruneStable` | src/page.py:58-83 | rendering again with the selections the panel wrote back prunes nothing: the pruned selections are a fixed point |
| `Page.ActiveFilterNeverEmpty` | src/page.py:85-91 | an active filter always leaves at least one material |
| `Page.RestrictFilaments` | src/page.py:174-182 | without a filter the spool dict is unchanged; with one, its entries are, in order and unchanged, exactly those whose material id hashes like the id of some filtered material (`Page.MaterialIds`, the set of line 175); the dict comprehension is `Seqs.Filter` over the entries |
| `Page.RestrictLookups` | src/page.py:176-180 | the spools the filter keeps can still be looked up |
| `Seqs.Chunks` | src/page.py:96-98 | the rows concatenate to the input, each row has 1 to 3 cells, and every row but the last has exactly 3 |
| `Page.CellOf` | src/page.py:100-103 | a spool's cell is a warning exactly when its material id is not a key of the material dict, and otherwise shows the material stored there |
| `Page.Grid` | src/page.py:95-103 | the grid holds one cell per spool, in dict order, in rows of 3 with only the last row shorter |
| `Page.GridCellsFrom` | src/page.py:95-100 | every cell of the grid shows one of the spools it was given |
| `Page.ShownHasMaterial` | src/page.py:175-180 | a spool kept by the filter references a material that is a key of the material dict |
| `Page.ActiveGridResolves` | src/page.py:174-183 | with a filter active, no grid cell is a missing-material warning |
| `Page.Render` | src/page.py:173-183 | the panel is rendered from the stored selections and the grid is that of the spools the filter leaves; every cell shows one of the fetched spools; without a filter the cells are, in dict order, one per spool, each looked up in the full material dict; with a filter none is a missing-material warning |
| `Page.Refresh` | src/page.py:166-170 | materials are fetched first, so their error wins; otherwise a spool error is returned; when both fetches succeed, the result is the two fetched dicts, each keyed by id |

## Left out

- The HTTP request, its headers, the timeout and the `requests` exception classes. A transport failure is an input (`TransportFail`), and whether it timed out is all the model keeps.
- JSON text decoding (`response.json()`). The body arrives decoded or marked undecodable. Floating-point numbers are exact reals.
- Client.Message: a vendor message that is not a string is shown with Python's `str()`, which the model does not render, so the message is `None` there.
- Urls.JoinUrl: only the case where `urljoin` appends a clean relative path is modelled. The precondition excludes dot segments, empty segments, '?', '#' and ':' in a segment, and requires an http(s) base with a host. The host must be ASCII and free of '[' and ']'. Otherwise urlsplit raises ValueError (an invalid IPv6 literal, or a host whose NFKC form holds a URL delimiter), and `_get` raises it outside its `try`. It also excludes tab, CR and LF anywhere and a leading control character or space in a segment, because urlsplit deletes or strips them. General reference resolution (section 5.2 of RFC 3986) is out of scope.
- Urls.RequestUrl: `_get` calls `_join_url` without `trailing_slash`, so the URL it requests has no trailing '/'. The model states exactly that. Company ids and bases that urljoin would rewrite or reject are excluded, as for Urls.JoinUrl.
- Urls.ResolveSegments: the same restriction as Urls.JoinUrl. An empty segment is excluded, for instance: `urljoin(url, "/")` resolves to the root rather than appending.
- Page.Options, Page.Available, Page.Pruned, Page.RenderMaterials, Page.Render: every truthy brand, material type and filament type name must be a JSON string. Option lists are lists of strings in the model. Python's `sorted` raises TypeError on a set mixing strings with other types, and the model does not represent that failure. The precondition also excludes facets whose values are all numbers or all other non-strings, which Python would sort and show.
- Page.Grid: every spool's material id must be hashable. Python's `materials.get` raises TypeError otherwise, and so does the set lookup in `render`.
- Page.Grid: a card for a spool whose material was found divides `left` by `total` and computes the grams left from `left`, `dia` and `density` (src/page.py:110-114). A `total` of 0 raises ZeroDivisionError. `st.progress` (line 115) rejects a fill outside [0.0, 1.0], so a negative `left` or a `left` above `total` raises as well. A null or non-numeric `total`, `left`, `dia` or `density` raises TypeError. `render` catches only `SimplyPrintError`, so such a spool stops the page partway through the grid. The model draws a cell for it instead, and Page.Render's 'every spool gets a cell' holds only for spools that Python can draw.
- Page.Render: the material dict must be keyed by id, which `Client.GetMaterials` guarantees.
- Streamlit widgets, layout and session state are not modelled. The model takes the stored selections as input. A multiselect with a key returns the value just written to the session, so the selections in force are the pruned ones.
- The `st.cache_data` refresh caching and the fetch timestamp are not modelled: caching is library behaviour the code does not show.
- The spool SVG, the fill ratio and the grams-left estimate are floating-point display code and are not modelled. Their exceptions are described under Page.Grid above. The caption texts are display only.
- JSON objects with a repeated member name are out of scope. Python's decoder keeps one member per name, holding the last value, while `Payload.Json` would keep every member. For such an object `Payload.Get` reads the first value and `Client.FilamentItems` lists all of them.
- `src/app.py`, which reads environment variables, is not part of this model.

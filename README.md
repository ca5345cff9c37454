# brickse in Dafny

A model of the core of **brickse**, a Python client for the BrickSet API (version 3),
with proofs about it. It covers four parts of the client:

- **Request builders** (`brickse/api_lego.py`, `brickse/api_users.py`). Each one turns its
  arguments into the call `request(config.API_URL + endpoint, parameters, post)`. The search
  builders also:
  - give a bare set number its default variant `-1`;
  - drop the `None` filters;
  - send `extendedData`, `owned` and `wanted` as `0`/`1`;
  - JSON-encode the resulting block.
- **Entity records** (`brickse/objects.py`): `Collection`, `Theme`, `Instructions` and
  `Minifig`.
  - Each subclass `__init__` declares its attributes as `None`.
  - `_Entity.__init__` then assigns the keyword arguments one at a time. It raises
    `AttributeError` at the first name the instance lacks.
  - The `create` static methods map BrickSet's JSON onto those keyword arguments.
  - `Instructions.create` derives a version tag and a part index and count from the
    description, using two regular expressions.
- **The `Brickse` facade** (`brickse/brickse.py`). It holds the API key, the user token and
  the `silent` flag. It provides:
  - `login`;
  - the page-by-page `get_sets` and `get_users_sets`;
  - `get_set` and `get_set_instructions`, which looks the set up first when it has no id;
  - `get_themes`, and `get_subthemes`, which skips the entries whose `subtheme` is `'{None}'`;
  - `get_users_minifigs`;
  - `_on_error`, which either silences an `HTTPError` or re-raises it.

Modules:

| file | module | what it holds |
|---|---|---|
| `wrappers.dfy` | `Wrappers` | `Option` and `Result` |
| `chars.dfy` | `Chars` | the digits and whitespace of the regexes, decimal text |
| `json.dfy` | `Json` | decoded JSON values and the Python operations the client applies to them: truthiness, `d[k]`, `d.get`, iteration, `x[0]`, `int()`, `<=` |
| `patterns.dfy` | `Patterns` | the two description regexes, as matchers that follow the engine's backtracking order, each proved equal to a declarative definition of a match |
| `objects.dfy` | `Objects` | class `Entity`, which stands for every subclass of `_Entity` (its `kind` says which one), and the `create` functions |
| `params.dfy` | `Params` | what the builders share: set-number normalisation, `int(flag)`, dropping `None`, the `Request` value |
| `api_lego.dfy` | `ApiLego` | the catalogue builders |
| `api_users.dfy` | `ApiUsers` | the account builders |
| `brickse.dfy` | `Facade` | class `Brickse`, its specification functions, and the pagination proofs |

How the model represents the program:

- **I/O is an input.** A getter receives the reply to each request it sends: a decoded
  body, or an `HTTPError` with its status. It returns the requests it sent.
- **`get_sets` and `get_users_sets`** receive the replies to successive pages as a list.
  `Walk` is the loop as a function. `Accumulated`, `Continues` and `Finishes` describe the
  same search page by page, and the `Pagination*` lemmas connect the two descriptions.
- **A getter's outcome** is `Returned(value)`, which may hold `None`, or `Raised(error)`.
- **`None`** is `JNull`. A `None` argument to a builder is `JNull` too.
- **Entity objects** are compared with the specification through their attribute
  dictionaries, `Dicts`.
- **`login`.** When the reply has no `hash`, `login` stores and returns `None`, as the
  source does. That is `Returned(Some(JNull))`; `Returned(None)` is the silenced error.
- **`get_users_minifigs`** accepts `query`, `owned` and `wanted` and never passes them on:
  `brickse/brickse.py:399-401` sends the stored key and token only. The model keeps this
  behaviour.

## Model

| member | source | states |
|---|---|---|
| Params.Normalise | brickse/api_lego.py:55-56 | a set number changes exactly when it is truthy and its text has no `-`; it then becomes that text plus `-1`; a truthy number always ends up containing `-` |
| Params.NormaliseIdempotent | brickse/api_lego.py:105-106 | normalising an already normalised number changes nothing, so `get_set` normalising before `get_sets` does is harmless |
| Params.Bit | brickse/api_lego.py:65 | `int(flag)` is 1 for true and 0 for false, never anything else |
| Params.DropNone | brickse/api_lego.py:70 | the filtered block keeps exactly the keys whose value is not `None`, with their values |
| Params.DropNoneInvisible | brickse/api_users.py:209 | dropping the `None` entries changes nothing a reader of the block sees (a missing key reads as `None`), and no `None` is left |
| Params.DropNoneAdd | brickse/api_users.py:131-138 | adding a value that is not `None` to the block before or after the filter gives the same block |
| ApiLego.SearchCandidates | brickse/api_lego.py:58-68 | the candidate block has exactly the ten search keys, each holding its argument, with the set number normalised and `extendedData` as a bit |
| ApiLego.GetSets | brickse/api_lego.py:55-79 | a POST to `getSets` with an empty `userHash` and the key; every filter that is not `None` is in the block under its own name and unchanged, except that the set number is normalised; `None` filters are absent; `extendedData` is always there as 0 or 1 |
| ApiLego.GetSet | brickse/api_lego.py:105-112 | equals `get_sets` with the id, the raw number and `extended_data`; its block holds no other key |
| ApiLego.GetSetImages | brickse/api_lego.py:132-138 | a GET to `getAdditionalImages` carrying only the set id and the key |
| ApiLego.GetSetInstructions | brickse/api_lego.py:158-164 | a GET to `getInstructions` carrying only the set id and the key |
| ApiLego.GetSetReviews | brickse/api_lego.py:184-190 | a GET to `getReviews` carrying only the set id and the key |
| ApiLego.GetThemes | brickse/api_lego.py:207-212 | a GET to `getThemes` carrying only the key |
| ApiLego.GetSubthemes | brickse/api_lego.py:233-239 | a POST to `getSubthemes` with the theme under `Theme` |
| ApiLego.GetThemeYears | brickse/api_lego.py:260-266 | `Theme` is never `None`: a falsy theme is sent as the empty string, a truthy one unchanged |
| ApiUsers.GetToken | brickse/api_users.py:31-38 | a POST to `login` with exactly the user name, password and key |
| ApiUsers.CheckToken | brickse/api_users.py:58-64 | a POST to `checkUserHash` with the token as `userHash` |
| ApiUsers.GetSets | brickse/api_users.py:121-147 | a POST to `getSets` with the user's hash; the block holds only search keys plus `owned` and `wanted`, none `None`, and always `owned`, `wanted` and `extendedData` as bits |
| ApiUsers.FlagsBlock | brickse/api_users.py:131-138 | adding the two flags to any candidate block with `extendedData` gives a filtered block that holds both flags and keeps `extendedData` |
| ApiUsers.UserSearchExtendsCatalogue | brickse/api_users.py:121-147 | the user search equals the catalogue search with the same filters, with the user's hash in place of the empty one and `owned` and `wanted` added to the block |
| ApiUsers.FlagsAdded | brickse/api_users.py:138-143 | adding the flags before filtering equals adding them to the filtered block |
| ApiUsers.GetSetsNotes | brickse/api_users.py:168-174 | a POST to `getUserNotes` with the hash and the key |
| ApiUsers.GetMinifigs | brickse/api_users.py:204-218 | a POST to `getMinifigCollection`; the block always has `owned` and `wanted` as bits, and has `query` exactly when it is not `None` |
| ApiUsers.GetMinifigsNotes | brickse/api_users.py:239-245 | a POST to `getUserMinifigNotes` with the hash and the key |
| Chars.IsSpace | brickse/objects.py:8 | `\s` is the set of characters `str.isspace` accepts; none of them is a digit, `/` or `-`, so the separators of the parts pattern never overlap its digit groups |
| Chars.DigitsValue | brickse/objects.py:202-203 | the value `int()` gives a string of `n` digits is below `10^n`, so a one- or two-digit group is at most 99 |
| Json.IntString | brickse/api_lego.py:55 | `str(n)` is never empty and starts with `-` exactly when `n` is negative |
| Json.Truthy | brickse/brickse.py:176 | reference definition of Python truthiness, used by every `if not data` (also lines 222, 254, 292 and 409) and by `if descr` (objects.py:190): `None`, `False`, `0` and empty strings, lists and dicts are false, everything else is true |
| Json.Index | brickse/objects.py:79-86 | `data[key]` succeeds exactly on a dict holding the key and yields its value; a dict without it raises `KeyError` with the key |
| Json.Get | brickse/objects.py:87 | `data.get(key, default)` succeeds exactly on a dict, and yields the value or the default |
| Json.Iterate | brickse/brickse.py:134 | `for item in v` runs exactly over a list or a string: a list yields its elements in order and a string its one-character strings; anything else raises `TypeError` |
| Json.First | brickse/brickse.py:180 | `v[0]` succeeds exactly on a non-empty list or string and yields its first element or character; an empty one raises `IndexError`, a dict `KeyError(0)`, anything else `TypeError` |
| Json.AtMost | brickse/brickse.py:138 | `v <= n` succeeds exactly on numbers and booleans, comparing a boolean as 0 or 1; anything else raises `TypeError` |
| Json.ParseInt | brickse/objects.py:134-136 | `int(s)` succeeds exactly on an optional sign followed by one or more digits, and yields the signed value of the digits; otherwise `ValueError` |
| Json.ToInt | brickse/objects.py:134-136 | `int(v)` succeeds exactly on a number, a boolean (as 0 or 1) or a string `int()` accepts, and keeps a number's value |
| Patterns.Search | brickse/objects.py:193 | a result of `re.search` is the anchored match at some start position at or after where it began |
| Patterns.VersionAt | brickse/objects.py:7 | a match of the version pattern at one position yields exactly two digits as group 1 |
| Patterns.VersionSearch | brickse/objects.py:193-195 | a version match found anywhere in the description yields exactly two digits as group 1 |
| Patterns.PartsAt | brickse/objects.py:8 | a match of the parts pattern at one position yields two groups of one or two digits each |
| Patterns.PartsSearch | brickse/objects.py:200-203 | a parts match found anywhere in the description yields two groups of one or two digits each |
| Patterns.SearchLeftmost | brickse/objects.py:193 | `re.search` finds a match exactly when some start position has one, and reports the one at the leftmost such position |
| Patterns.AfterAlternative | brickse/objects.py:7 | after one alternative of the version pattern, the greedy `.?` path wins when it matches, otherwise the path without a skipped character |
| Patterns.VersionAtFirstPath | brickse/objects.py:7 | the version matcher at one position succeeds exactly when some declarative path matches, and reports the group of the first path in the engine's order |
| Patterns.VersionSearchFindsLeftmost | brickse/objects.py:193-195 | the version search succeeds exactly when the description contains a match, and reports the two digits of the first path at the leftmost matching position |
| Patterns.PartsPathUnique | brickse/objects.py:8 | at any position the parts pattern matches in at most one way |
| Patterns.PartsAtPath | brickse/objects.py:8 | the parts matcher at one position succeeds exactly when a declarative path matches, and reports that path's two groups |
| Patterns.PartsSearchFindsLeftmost | brickse/objects.py:200-203 | the parts search succeeds exactly when the description contains a match, and reports the groups of the leftmost one |
| Objects.Defaults | brickse/objects.py:39-52 | before `_Entity.__init__` runs, the instance has exactly the declared attributes, all `None` (the `__init__` of `Collection` cited here; `Theme`, `Instructions` and `Minifig` declare theirs at lines 99-104, 154-158 and 221-228) |
| Objects.ApplyAttrs | brickse/objects.py:15-23 | construction keeps the attribute names; a failure is an `AttributeError` naming an attribute the instance lacks |
| Objects.ApplyAttrsFails | brickse/objects.py:19-23 | construction fails exactly when some keyword is not an attribute, and the error names the first such keyword |
| Objects.ApplyAttrsKeeps | brickse/objects.py:19-21 | an attribute no keyword names keeps the value it had, `None` on a new instance |
| Objects.ApplyAttrsAssigns | brickse/objects.py:19-21 | a keyword not repeated later sets its attribute to its value |
| Objects.ApplyAttrsSnoc | brickse/objects.py:19-23 | one more keyword after a successful prefix is assigned when the instance has it and raises `AttributeError` naming it otherwise |
| Objects.ApplyAttrsWellNamed | brickse/objects.py:15-23 | keywords that all name declared attributes always construct, and each attribute holds its keyword's value |
| Objects.Entity.constructor | brickse/objects.py:36-52 | a new instance of the kind, its declared attributes all `None` |
| Objects.Entity.SetAttributes | brickse/objects.py:15-23 | the loop over the keywords leaves the attributes as `ApplyAttrs` says, or returns its error with the keywords before the failing one already assigned |
| Objects.Entity.New | brickse/objects.py:36-54 | a fresh instance of the kind whose attributes are the declared `None`s after the keywords, or the `AttributeError` |
| Objects.Entity.Create | brickse/objects.py:63-89 | a fresh instance whose attributes are `Created(kind, data)`, or that function's exception |
| Objects.Kwargs | brickse/objects.py:78-89 | the `create` of each kind (`Collection.create` cited; `Theme`, `Instructions` and `Minifig` at lines 130-144, 206-211 and 254-261) passes keyword arguments that are distinct attributes its class declares |
| Objects.Created | brickse/objects.py:78-89 | a created instance has exactly the attributes its subclass declares |
| Objects.VersionTag | brickse/objects.py:190-197 | the tag is `None`, `V` followed by two digits, `IN` or `NA` |
| Objects.PartNumbers | brickse/objects.py:200-203 | the part index and count are both `None` or both integers in 0..99 |
| Objects.Describe | brickse/objects.py:184-203 | a falsy description derives no tag and no part numbers; a non-string truthy one raises; a string one derives the version tag and part numbers of its text |
| Objects.VersionTagCases | brickse/objects.py:193-197 | with a version match the tag is `V` plus the two digits of the leftmost match; otherwise it is the trailing `IN` or `NA` after a space, or `None` |
| Objects.PartNumbersCases | brickse/objects.py:200-203 | the part index and count are set together, exactly when the parts pattern matches; each is `int()` of a leftmost-match group and lies in 0..99 |
| Objects.CollectionKwargs | brickse/objects.py:78-89 | the arguments evaluate exactly when the data is a dict holding the ten keys indexed and its `image` is a dict; they are eleven distinct declared attributes; data that is not a dict raises `TypeError` |
| Objects.ThemeKwargs | brickse/objects.py:130-144 | the arguments evaluate exactly when the data is a dict holding `theme` whose `setCount`, `yearFrom` and `yearTo` pass `int()`; they are distinct declared attributes; data that is not a dict raises `TypeError` |
| Objects.ToIntAt | brickse/objects.py:134-136 | `int(data[key])` fails unless the dict holds the key, raising `KeyError` with the key when it does not, and otherwise is `int()` of the value |
| Objects.InstructionsKwargs | brickse/objects.py:184-211 | the arguments evaluate exactly when the data is a dict holding `URL` whose description, if any, can be searched; they are distinct declared attributes; data that is not a dict fails at `.get`; an unsearchable description raises `TypeError` before the URL is read |
| Objects.MinifigKwargs | brickse/objects.py:254-261 | the arguments evaluate exactly when the data is a dict holding the seven keys read; they are distinct declared attributes; data that is not a dict raises `TypeError` |
| Objects.CollectionCreateFails | brickse/objects.py:78-89 | `Collection.create` succeeds exactly when the data is a dict holding the ten keys it indexes and its `image` is a dict |
| Objects.CollectionCreated | brickse/objects.py:78-89 | each attribute of a created set is the JSON field it is renamed from; `subtheme` and `image_url` default to `None` |
| Objects.ThemeCreated | brickse/objects.py:130-144 | a sub-theme entry sets `parent` and `name` from `theme` and `subtheme`; a theme entry sets `name` and `subthemes`; the counts are `int()` of their fields |
| Objects.InstructionsCreated | brickse/objects.py:184-211 | the description and URL are stored unchanged; a falsy description derives nothing; a truthy one is a string whose tag and part numbers are stored |
| Objects.MinifigCreated | brickse/objects.py:254-261 | `Minifig.create` succeeds exactly when the seven fields are present, and copies each onto its attribute |
| Facade.OnError | brickse/brickse.py:447-453 | a silent client returns `None`; otherwise the same error is raised |
| Facade.Keeps | brickse/brickse.py:297 | `get_subthemes` reads `item['subtheme']`, which succeeds exactly on a dict holding it, and keeps the entry exactly when it is not `'{None}'`; the other list getters keep every entry |
| Facade.CollectOne | brickse/brickse.py:296-298 | one entry contributes nothing when skipped and otherwise its one created entity; it fails exactly when the filter or `create` raises |
| Facade.Collect | brickse/brickse.py:258-259 | reference definition of the append loops (also lines 134-135, 226-227, 296-298 and 413-414): the created entities of the kept entries in order, or the first exception; its properties are stated by `CollectLength`, `CollectAll`, `CollectPrefixFails` and `SubthemesFiltered` |
| Facade.CollectLength | brickse/brickse.py:258-259 | the append loop makes at most one entity per entry, and exactly one per entry without a filter |
| Facade.CollectAll | brickse/brickse.py:258-259 | the unfiltered append loop creates one entity per entry, in order; it fails exactly when some entry fails, with the first failing entry's exception |
| Facade.CollectPrefixFails | brickse/brickse.py:226-227 | an exception among the first entries is the loop's exception |
| Facade.Kept | brickse/brickse.py:296-297 | the kept entries are exactly those whose `subtheme` is not `'{None}'`, none added |
| Facade.KeptAppend | brickse/brickse.py:296-297 | the sub-theme filter keeps order: filtering two lists in turn is filtering their concatenation |
| Facade.SubthemesFiltered | brickse/brickse.py:296-298 | the sub-theme loop reads every entry's `subtheme`, and when it succeeds it creates exactly the kept entries, in order |
| Facade.Listed | brickse/brickse.py:253-255 | `.get(key)` of the body gives `None` exactly when the body is a dict whose key is missing or falsy, otherwise the entries of the value; a body that is not a dict fails at `.get` |
| Facade.ListOutcome | brickse/brickse.py:244-261 | a list getter returns `None` exactly when it silences an `HTTPError` or the list is missing or falsy; an unsilenced `HTTPError` is raised; a returned list has at most one entity per entry |
| Facade.ListNoneWhenEmpty | brickse/brickse.py:253-255 | a missing or empty list gives `None`, never an empty list; an unfiltered list getter never returns an empty list |
| Facade.SetOutcome | brickse/brickse.py:164-180 | `get_set` returns `None` exactly when it silences an `HTTPError` or `sets` is missing or falsy; an unsilenced `HTTPError` is raised; a returned set has exactly the attributes `Collection` declares |
| Facade.LoginOutcome | brickse/brickse.py:61-77 | `login` returns `None` only for a silenced `HTTPError`; it returns a token value exactly when the body is a dict, namely its `hash` or `None` without one; a body that is not a dict fails at `.get` |
| Facade.InstructionsOutcome | brickse/brickse.py:199-229 | with an id it is the instructions request's outcome; without one, a lookup that gives `None` (a silenced `HTTPError` or no set) makes the call return `None`, a lookup that raises makes it raise the same exception, and a set found leads to the instructions request's outcome; instructions are returned only when an id was given or the lookup found a set |
| Facade.InstructionsSent | brickse/brickse.py:202-214 | one request with an id; without one the lookup by number first, and the instructions request for the `set_id` found exactly when the lookup returns a set |
| Facade.SetFirstOrNone | brickse/brickse.py:175-180 | `get_set` gives `None` for missing, `None` or empty `sets`, and otherwise creates a set from the first entry |
| Facade.PageSets | brickse/brickse.py:134-135 | a page's sets come from a dict holding an iterable `sets`, one per entry; a page that is not a dict raises `TypeError` |
| Facade.PageDone | brickse/brickse.py:138 | `data['matches'] <= count` succeeds exactly when `matches` is there and is a number or boolean, and then compares it with the count |
| Facade.Step | brickse/brickse.py:131-139 | after a page the accumulated sets are the earlier ones followed by the page's, and the loop stops exactly when `matches` is at most their number |
| Facade.PagedOutcome | brickse/brickse.py:126-144 | a paginated getter returns its sets exactly when the search completes, and then all of them; it returns `None` exactly for a silenced `HTTPError`; otherwise it raises the `HTTPError` or the page's other exception |
| Facade.Walk | brickse/brickse.py:111-142 | from any page on, the search uses at least that page's reply and at most all the replies given, and ends unfinished only after using them all |
| Facade.Requested | brickse/brickse.py:109-142 | the requests of the first `n` pages are the builder's requests for pages 1 to `n`, in order |
| Facade.WalkFrom | brickse/brickse.py:111-142 | after pages that did not finish, the loop stands where the page-by-page reference says |
| Facade.WalkAt | brickse/brickse.py:126-139 | one pass at a page the reference reaches: an `HTTPError` ends the search, an exception in the page's sets or `matches` ends it, `matches <= len(sets)` completes it, and otherwise it goes on |
| Facade.WalkCompletes | brickse/brickse.py:137-144 | a search that completes ends at the first page that finishes it, with the reference's sets |
| Facade.WalkFails | brickse/brickse.py:126-128 | a search that ends in an `HTTPError` got it for the last page it requested, all earlier pages having gone on |
| Facade.WalkStops | brickse/brickse.py:131-138 | a search that raises another exception raises that page's `sets` or `matches` exception, all earlier pages having gone on |
| Facade.PaginationCompletes | brickse/brickse.py:108-144 | a completed search requested pages 1 to the first finishing page and returns the concatenation of their sets |
| Facade.PaginationFinishes | brickse/brickse.py:108-144 | conversely, a page that finishes the reference ends the search there with the concatenated sets |
| Facade.PaginationHttpFailure | brickse/brickse.py:126-128 | an `HTTPError` on a page the loop reaches ends the search at that page |
| Facade.PaginationFails | brickse/brickse.py:126-128 | a search ending in an `HTTPError` got it for its last requested page, after pages that all went on |
| Facade.CreateEach | brickse/brickse.py:296-298 | the append loop returns entities whose attributes are what `Collect` specifies, or its exception |
| Facade.CreateKept | brickse/brickse.py:297-298 | one pass of the append loop: the entity for a kept entry, nothing for a skipped one, or the exception |
| Facade.ReadPage | brickse/brickse.py:131-139 | the body of the page loop appends the page's sets and compares `matches` with the new count, as `Step` specifies |
| Facade.Brickse.constructor | brickse/brickse.py:38-40 | the client holds the key, token and `silent` flag it was given |
| Facade.Brickse.Login | brickse/brickse.py:61-77 | sends the key with the credentials; the stored token becomes the reply's `hash`, or `None` without one; an error leaves the stored token unchanged |
| Facade.Brickse.Paginate | brickse/brickse.py:108-144 | the loop requests pages 1, 2, ... as far as the search goes, and returns the search's sets, `None` or exception |
| Facade.Brickse.NextPage | brickse/brickse.py:126-142 | one pass of the page loop either ends the search at this page, as `Walk` says, or continues it with the new sets |
| Facade.Brickse.GetSets | brickse/brickse.py:108-144 | the requests are catalogue searches with `extendedData` for pages 1 to the last one used; the outcome is the search's outcome |
| Facade.Brickse.GetUsersSets | brickse/brickse.py:334-373 | the same with the user's search, the stored token, `owned` and `wanted` |
| Facade.Brickse.GetSet | brickse/brickse.py:163-180 | sends `get_set` with the stored key; returns the set made from the first entry, `None`, or the exception |
| Facade.Brickse.ListReply | brickse/brickse.py:253-261 | a list getter after its request: `_on_error` for an `HTTPError`, `None` for a falsy list, then the append loop |
| Facade.Brickse.GetSetInstructions | brickse/brickse.py:199-229 | without an id it looks the set up first and stops when that gives `None` or raises; then it requests the instructions for the id found and creates them |
| Facade.Brickse.GetThemes | brickse/brickse.py:241-261 | sends `get_themes` with the stored key and creates a theme per entry |
| Facade.Brickse.GetSubthemes | brickse/brickse.py:278-300 | sends `get_subthemes` and creates themes from the entries whose `subtheme` is not `'{None}'` |
| Facade.Brickse.GetUsersMinifigs | brickse/brickse.py:395-416 | sends only the stored key and token, so the block is always `owned = 0, wanted = 0`, and creates a minifig per entry |

## Left out

- **The transport.** `request` itself, `urlopen`, `response.read()` and the network are not
  modelled. A getter receives its replies as inputs, and a request is represented by the
  call that would send it.
- **`get_file`.** It only downloads a URL, so there is nothing to model beyond the transport.
- **`config.API_URL`.** A request names only its endpoint (`"getSets"`). The base URL is a
  constant the model does not need.
- **`assert_user_token`** (in `brickse/request.py`, which is not part of this model). Its
  result is kept as the token it was given (`UserHash`).
- **`json.dumps` and `json.loads`.** A params block is kept as a map, not as text, so key
  order and the exact text are not modelled. Replies that are not valid JSON are not
  modelled either.
- **Unicode digits in the regexes.** `\d` is the ASCII digits in the model. On `str`
  patterns, Python also matches the other Unicode decimal digits (Arabic-Indic, Devanagari
  and so on). `\s` is modelled exactly, as the characters `str.isspace` accepts.
- **Exception arguments and messages.** An exception is its class and the key or name
  it is about: `KeyError` carries the missing key as a value (a string for `data['key']`,
  the int `0` for `data[0]` on a dict), and `AttributeError` the missing attribute's name
  (`get` for `.get` on a value that is not a dict, the keyword for `_Entity.__init__`).
  Python's message text and the other exceptions' arguments are not modelled.
- **`int()` of a string.** The model accepts an optional sign followed by ASCII digits.
  Surrounding whitespace, underscores and non-ASCII digits are not modelled.
- **Floats.** JSON numbers are integers in the model. A float `matches` or `setCount` is
  not modelled.
- **Iterating a dict.** Where the client iterates a list, a dict raises `TypeError` in the
  model. Python would iterate its keys, in an insertion order a map does not keep.
- **`hasattr`.** It is modelled as membership in the declared attributes. An attribute
  that comes from the class (a method, a dunder name) would pass `hasattr` in Python, and
  is not modelled.
- **`set_number` types.** Only `int` and `str` are modelled.
- **Flag types.** `extended_data`, `owned` and `wanted` are booleans in the model, as their documentation says. `int()` of another value is not modelled: `None` would raise `TypeError` and `2` would be sent as `2`.
- **`__str__` and `__repr__`.** They only format text.
- **Outside the client.** The scripts under `examples/` and `setup.py` are not modelled.
- **Facade.Brickse.Paginate:** the replies form a finite list, and the loop is required to
  stop within them. A server that never reports enough matches would make the source loop
  forever, and that is not modelled.

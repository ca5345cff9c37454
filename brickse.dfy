/** The `Brickse` facade of `brickse.py`: an object holding the API key, the user token
    and the `silent` flag, whose getters send requests built by `api_lego.py` and
    `api_users.py` and map the decoded responses to entities.

    The transport is an input: each getter receives the replies its requests get, either a
    decoded body or an `HTTPError` with its status. A getter returns a value (possibly
    `None`) or raises; only an `HTTPError` is caught, and `_on_error` silences it when the
    object is silent. */
module Facade {
  import opened Wrappers
  import opened Json
  import opened Params
  import opened Objects
  import Lego = ApiLego
  import Users = ApiUsers

  /** The reply to one request: the decoded JSON body, or an `HTTPError`. */
  datatype Reply = Body(data: Value) | HttpFailure(status: int)

  /** What a getter does: return a value (`None` included), or raise. */
  datatype Outcome<T> = Returned(value: Option<T>) | Raised(error: Error)

  /** `_on_error(e)` followed by `return None`: silenced when silent, re-raised otherwise. */
  function OnError<T>(silent: bool, e: Error): (r: Outcome<T>)
    ensures r.Returned? <==> silent
    ensures r.Returned? ==> r.value.None?
    ensures r.Raised? ==> r.error == e
  {
    if silent then Returned(None) else Raised(e)
  }

  /** A computation outside the `try`: its exception propagates. */
  function Lift<T>(r: Result<T, Error>): Outcome<T> {
    match r
    case Success(v) => Returned(Some(v))
    case Failure(e) => Raised(e)
  }

  /*** The append loops ***/

  /** Which response entries a list getter turns into entities: all of them, or (in
      `get_subthemes`) those whose `subtheme` is not the string `'{None}'`. */
  datatype Filter = KeepAll | SkipNoneSubthemes

  /** Whether the loop keeps `item`; reading `item['subtheme']` may raise. */
  function Keeps(filter: Filter, item: Value): (r: Result<bool, Error>)
    ensures filter == KeepAll ==> r == Success(true)
    ensures filter == SkipNoneSubthemes ==> (r.Success? <==> item.JObject? && "subtheme" in item.fields)
    ensures filter == SkipNoneSubthemes && r.Success? ==> (r.value <==> item.fields["subtheme"] != JStr("{None}"))
  {
    match filter
    case KeepAll => Success(true)
    case SkipNoneSubthemes =>
      var subtheme :- Index(item, "subtheme");
      Success(subtheme != JStr("{None}"))
  }

  /** `X.create` for the entity kind `X`, as a function value. */
  function Creator(kind: Kind): Value -> Result<Dict, Error> {
    item => Created(kind, item)
  }

  /** What one entry contributes: nothing when the filter skips it, otherwise the
      attributes of the entity `create` makes from it, or the exception. */
  function CollectOne(create: Value -> Result<Dict, Error>, filter: Filter, item: Value): (r: Result<seq<Dict>, Error>)
    ensures r.Success? <==> Keeps(filter, item).Success? && (Keeps(filter, item).value ==> create(item).Success?)
    ensures r.Success? ==> |r.value| <= 1 && (r.value != [] <==> Keeps(filter, item).value)
    ensures r.Success? && r.value != [] ==> r.value[0] == create(item).value
  {
    var keep :- Keeps(filter, item);
    if keep then
      var d :- create(item);
      Success([d])
    else Success([])
  }

  /** The append loop of a list getter: the attributes of the entities `create` makes from
      the kept entries, in order, or the first exception. */
  function Collect(create: Value -> Result<Dict, Error>, items: seq<Value>, filter: Filter): Result<seq<Dict>, Error> {
    if items == [] then Success([])
    else
      var init :- Collect(create, items[..|items| - 1], filter);
      var one :- CollectOne(create, filter, items[|items| - 1]);
      Success(init + one)
  }

  /** The loop makes at most one entity per entry, and exactly one without a filter. */
  lemma {:induction false} CollectLength(create: Value -> Result<Dict, Error>, items: seq<Value>, filter: Filter)
    ensures Collect(create, items, filter).Success? ==> |Collect(create, items, filter).value| <= |items|
    ensures Collect(create, items, filter).Success? && filter == KeepAll ==>
            |Collect(create, items, filter).value| == |items|
  {
    if items != [] {
      CollectLength(create, items[..|items| - 1], filter);
    }
  }

  /** Without a filter the loop creates one entity per entry, in order, and fails exactly
      when some entry cannot be created, with the exception of the first such entry. */
  lemma {:induction false} CollectAll(create: Value -> Result<Dict, Error>, items: seq<Value>)
    ensures Collect(create, items, KeepAll).Success? <==>
            forall i :: 0 <= i < |items| ==> create(items[i]).Success?
    ensures Collect(create, items, KeepAll).Success? ==>
            var ds := Collect(create, items, KeepAll).value;
            |ds| == |items| && forall i :: 0 <= i < |items| ==> ds[i] == create(items[i]).value
    ensures Collect(create, items, KeepAll).Failure? ==>
            exists i :: 0 <= i < |items| && create(items[i]).Failure?
              && Collect(create, items, KeepAll).error == create(items[i]).error
              && forall j :: 0 <= j < i ==> create(items[j]).Success?
  {
    if items != [] {
      var init := items[..|items| - 1];
      CollectAll(create, init);
      assert forall i :: 0 <= i < |init| ==> init[i] == items[i];
      if Collect(create, init, KeepAll).Failure? {
        var i :| 0 <= i < |init| && create(init[i]).Failure?
                 && Collect(create, init, KeepAll).error == create(init[i]).error
                 && forall j :: 0 <= j < i ==> create(init[j]).Success?;
        assert create(items[i]).Failure?;
      } else if create(items[|items| - 1]).Failure? {
        assert forall j :: 0 <= j < |items| - 1 ==> create(items[j]).Success?;
      }
    }
  }

  /** One more pass of the loop, after a prefix that went through. */
  lemma CollectStep(create: Value -> Result<Dict, Error>, items: seq<Value>, k: nat, filter: Filter)
    requires k < |items| && Collect(create, items[..k], filter).Success?
    ensures
      var init := Collect(create, items[..k], filter).value;
      Collect(create, items[..k + 1], filter) ==
        match CollectOne(create, filter, items[k])
        case Failure(e) => Failure(e)
        case Success(one) => Success(init + one)
  {
    assert items[..k + 1][..k] == items[..k];
  }

  /** An exception in a prefix of the entries is the exception of the whole loop. */
  lemma {:induction false} CollectPrefixFails(create: Value -> Result<Dict, Error>, items: seq<Value>, k: nat, filter: Filter)
    requires k <= |items| && Collect(create, items[..k], filter).Failure?
    ensures Collect(create, items, filter) == Collect(create, items[..k], filter)
  {
    if k < |items| {
      assert items[..|items| - 1][..k] == items[..k];
      CollectPrefixFails(create, items[..|items| - 1], k, filter);
    } else {
      assert items[..k] == items;
    }
  }

  /** Every entry carries a `subtheme` key. */
  predicate AllSubthemes(items: seq<Value>) {
    forall i :: 0 <= i < |items| ==> items[i].JObject? && "subtheme" in items[i].fields
  }

  /** The entries whose `subtheme` is not `'{None}'`, in their order. */
  function Kept(items: seq<Value>): (r: seq<Value>)
    requires AllSubthemes(items)
    ensures |r| <= |items|
    ensures forall x :: x in r ==> x in items && x.fields["subtheme"] != JStr("{None}")
    ensures forall x :: x in items && x.fields["subtheme"] != JStr("{None}") ==> x in r
  {
    if items == [] then []
    else
      var init := Kept(items[..|items| - 1]);
      var item := items[|items| - 1];
      assert forall x :: x in items ==> x in items[..|items| - 1] || x == item;
      if item.fields["subtheme"] != JStr("{None}") then init + [item] else init
  }

  /** The filter keeps order: filtering two lists one after the other is filtering their
      concatenation. */
  lemma {:induction false} KeptAppend(a: seq<Value>, b: seq<Value>)
    requires AllSubthemes(a) && AllSubthemes(b)
    ensures AllSubthemes(a + b) && Kept(a + b) == Kept(a) + Kept(b)
  {
    if b == [] {
      assert a + b == a;
    } else {
      var init := b[..|b| - 1];
      assert AllSubthemes(init) by {
        forall i | 0 <= i < |init| ensures init[i] == b[i] {}
      }
      KeptAppend(a, init);
      assert (a + b)[..|a + b| - 1] == a + init;
      assert (a + b)[|a + b| - 1] == b[|b| - 1];
    }
  }

  /** The sub-theme loop reads every entry's `subtheme`, and when it succeeds it creates
      exactly the entries that `Kept` keeps, in order. */
  lemma {:induction false} SubthemesFiltered(create: Value -> Result<Dict, Error>, items: seq<Value>)
    requires Collect(create, items, SkipNoneSubthemes).Success?
    ensures AllSubthemes(items)
    ensures Collect(create, items, SkipNoneSubthemes) == Collect(create, Kept(items), KeepAll)
  {
    if items != [] {
      var init := items[..|items| - 1];
      var item := items[|items| - 1];
      SubthemesFiltered(create, init);
      assert forall i :: 0 <= i < |init| ==> init[i] == items[i];
      var kept := Kept(init);
      var before := Collect(create, init, SkipNoneSubthemes);
      assert before == Collect(create, kept, KeepAll) && before.Success?;
      assert Keeps(SkipNoneSubthemes, item).Success?;
      forall i | 0 <= i < |items| ensures items[i].JObject? && "subtheme" in items[i].fields {
        if i < |init| {
          assert items[i] == init[i];
        }
      }
      if item.fields["subtheme"] != JStr("{None}") {
        assert Kept(items) == kept + [item];
        assert (kept + [item])[..|kept|] == kept;
        assert create(item).Success?;
        assert CollectOne(create, KeepAll, item) == CollectOne(create, SkipNoneSubthemes, item);
        assert Collect(create, items, SkipNoneSubthemes) == Success(before.value + [create(item).value]);
      } else {
        assert Kept(items) == kept;
        assert CollectOne(create, SkipNoneSubthemes, item) == Success([]);
        assert before.value + [] == before.value;
      }
    }
  }

  /*** Single-request getters ***/

  /** `json.loads(...).get(key, None)`, then `None` for a falsy value, or its entries. */
  function Listed(body: Value, key: string): (r: Result<Option<seq<Value>>, Error>)
    ensures r == Success(None) <==> body.JObject? && (key !in body.fields || !Truthy(body.fields[key]))
    ensures r.Success? && r.value.Some? ==>
      body.JObject? && key in body.fields && Iterate(body.fields[key]) == Success(r.value.value)
    ensures !body.JObject? ==> r == Failure(AttributeError("get"))
  {
    var data :- Get(body, key, JNull);
    if !Truthy(data) then Success(None)
    else
      var items :- Iterate(data);
      Success(Some(items))
  }

  /** `get_themes`, `get_subthemes`, `get_users_minifigs` and the second half of
      `get_set_instructions`, after the request is sent. */
  function ListOutcome(silent: bool, reply: Reply, key: string, kind: Kind, filter: Filter): (r: Outcome<seq<Dict>>)
    ensures r == Returned(None) <==>
      || (reply.HttpFailure? && silent)
      || (reply.Body? && reply.data.JObject? && (key !in reply.data.fields || !Truthy(reply.data.fields[key])))
    ensures reply.HttpFailure? && !silent ==> r == Raised(HttpError(reply.status))
    ensures r.Returned? && r.value.Some? ==>
      && reply.Body? && Listed(reply.data, key).Success? && Listed(reply.data, key).value.Some?
      && |r.value.value| <= |Listed(reply.data, key).value.value|
  {
    match reply
    case HttpFailure(status) => OnError(silent, HttpError(status))
    case Body(body) =>
      match Listed(body, key)
      case Failure(e) => Raised(e)
      case Success(None) => Returned(None)
      case Success(Some(items)) =>
        CollectLength(Creator(kind), items, filter);
        Lift(Collect(Creator(kind), items, filter))
  }

  /** A missing or empty list gives `None`, never an empty list; without a filter every list
      returned is non-empty. */
  lemma ListNoneWhenEmpty(silent: bool, body: Value, key: string, kind: Kind, filter: Filter)
    requires body.JObject?
    ensures key !in body.fields || body.fields[key] == JList([]) ==>
            ListOutcome(silent, Body(body), key, kind, filter) == Returned(None)
    ensures filter == KeepAll && ListOutcome(silent, Body(body), key, kind, filter).Returned? &&
            ListOutcome(silent, Body(body), key, kind, filter).value.Some? ==>
            ListOutcome(silent, Body(body), key, kind, filter).value.value != []
  {
    if filter == KeepAll && Listed(body, key).Success? && Listed(body, key).value.Some? {
      var items := Listed(body, key).value.value;
      CollectAll(Creator(kind), items);
    }
  }

  /** `get_set` after the request is sent: `Collection.create` of the first entry of `sets`. */
  function SetOutcome(silent: bool, reply: Reply): (r: Outcome<Dict>)
    ensures r == Returned(None) <==>
      || (reply.HttpFailure? && silent)
      || (reply.Body? && reply.data.JObject? && ("sets" !in reply.data.fields || !Truthy(reply.data.fields["sets"])))
    ensures reply.HttpFailure? && !silent ==> r == Raised(HttpError(reply.status))
    ensures r.Returned? && r.value.Some? ==> r.value.value.Keys == Declared(Collection)
  {
    match reply
    case HttpFailure(status) => OnError(silent, HttpError(status))
    case Body(body) =>
      match Get(body, "sets", JNull)
      case Failure(e) => Raised(e)
      case Success(data) =>
        if !Truthy(data) then Returned(None)
        else Lift(var first :- First(data); Created(Collection, first))
  }

  /** `get_set` maps the first of the sets it gets back, and gives `None` when `sets` is
      missing, `None` or empty. */
  lemma SetFirstOrNone(silent: bool, body: Value)
    requires body.JObject?
    ensures "sets" !in body.fields || body.fields["sets"] in {JNull, JList([])} ==>
            SetOutcome(silent, Body(body)) == Returned(None)
    ensures "sets" in body.fields && body.fields["sets"].JList? && body.fields["sets"].items != [] ==>
            SetOutcome(silent, Body(body)) == Lift(Created(Collection, body.fields["sets"].items[0]))
  {
  }

  /** `login` after the request is sent: the `hash` of the reply, `None` without one. */
  function LoginOutcome(silent: bool, reply: Reply): (r: Outcome<Value>)
    ensures r == Returned(None) <==> reply.HttpFailure? && silent
    ensures reply.HttpFailure? && !silent ==> r == Raised(HttpError(reply.status))
    ensures r.Returned? && r.value.Some? <==> reply.Body? && reply.data.JObject?
    ensures r.Returned? && r.value.Some? ==>
      r.value.value == if "hash" in reply.data.fields then reply.data.fields["hash"] else JNull
    ensures reply.Body? && !reply.data.JObject? ==> r == Raised(AttributeError("get"))
  {
    match reply
    case HttpFailure(status) => OnError(silent, HttpError(status))
    case Body(body) => Lift(Get(body, "hash", JNull))
  }

  /** `get_set_instructions` without a `set_id` first looks the set up by number; a lookup
      that raises or finds nothing ends the call. */
  function InstructionsOutcome(silent: bool, setId: Value, lookup: Reply, reply: Reply): (r: Outcome<seq<Dict>>)
    ensures setId != JNull ==> r == ListOutcome(silent, reply, "instructions", Instructions, KeepAll)
    ensures setId == JNull && lookup.HttpFailure? ==> r == OnError(silent, HttpError(lookup.status))
    ensures setId == JNull && SetOutcome(silent, lookup) == Returned(None) ==> r == Returned(None)
    ensures setId == JNull && SetOutcome(silent, lookup).Raised? ==> r == Raised(SetOutcome(silent, lookup).error)
    ensures setId == JNull && SetOutcome(silent, lookup).Returned? && SetOutcome(silent, lookup).value.Some? ==>
      r == ListOutcome(silent, reply, "instructions", Instructions, KeepAll)
    ensures r.Returned? && r.value.Some? ==>
      && reply.Body?
      && (setId != JNull || (lookup.Body? && SetOutcome(silent, lookup).Returned? && SetOutcome(silent, lookup).value.Some?))
  {
    if setId != JNull then ListOutcome(silent, reply, "instructions", Instructions, KeepAll)
    else
      match SetOutcome(silent, lookup)
      case Raised(e) => Raised(e)
      case Returned(None) => Returned(None)
      case Returned(Some(_)) => ListOutcome(silent, reply, "instructions", Instructions, KeepAll)
  }

  /** The requests `get_set_instructions` sends: the lookup by number when there is no id,
      then the instructions request for the id or for the `set_id` of the set found. */
  function InstructionsSent(silent: bool, apiKey: Value, setId: Value, setNumber: Option<SetNumber>,
                            lookup: Reply): (r: seq<Request>)
    ensures 1 <= |r| <= 2
    ensures setId != JNull ==> r == [Lego.GetSetInstructions(setId, apiKey)]
    ensures setId == JNull ==> r[0] == Lego.GetSet(setNumber := setNumber, apiKey := apiKey)
    ensures |r| == 2 <==> setId == JNull && SetOutcome(silent, lookup).Returned? && SetOutcome(silent, lookup).value.Some?
    ensures |r| == 2 ==> r[1] == Lego.GetSetInstructions(SetOutcome(silent, lookup).value.value["set_id"], apiKey)
  {
    if setId != JNull then [Lego.GetSetInstructions(setId, apiKey)]
    else
      [Lego.GetSet(setNumber := setNumber, apiKey := apiKey)] +
      match SetOutcome(silent, lookup)
      case Returned(Some(found)) => [Lego.GetSetInstructions(found["set_id"], apiKey)]
      case _ => []
  }

  /*** Pagination ***/

  /** The creator function of the pagination lemmas below is any `create`; the facade
      uses `Creator(Collection)`. */

  /** The sets one page contributes: `create` applied to each entry of `data['sets']`. */
  function PageSets(create: Value -> Result<Dict, Error>, data: Value): (r: Result<seq<Dict>, Error>)
    ensures r.Success? ==> data.JObject? && "sets" in data.fields && Iterate(data.fields["sets"]).Success?
    ensures r.Success? ==> |r.value| == |Iterate(data.fields["sets"]).value|
    ensures !data.JObject? ==> r == Failure(TypeError)
  {
    var raw :- Index(data, "sets");
    var items :- Iterate(raw);
    CollectLength(create, items, KeepAll);
    Collect(create, items, KeepAll)
  }

  /** `data['matches'] <= count`: whether the search is over once `count` sets are in. */
  function PageDone(data: Value, count: nat): (r: Result<bool, Error>)
    ensures r.Success? <==>
      data.JObject? && "matches" in data.fields && (data.fields["matches"].JInt? || data.fields["matches"].JBool?)
    ensures r.Success? && data.fields["matches"].JInt? ==> (r.value <==> data.fields["matches"].i <= count)
  {
    var matches :- Index(data, "matches");
    AtMost(matches, count)
  }

  /** The loop body after a page arrives: the sets accumulated, and whether the search is
      over. */
  function Step(create: Value -> Result<Dict, Error>, data: Value, sofar: seq<Dict>): (r: Result<(seq<Dict>, bool), Error>)
    ensures r.Success? ==> PageSets(create, data).Success?
    ensures r.Success? ==> r.value.0 == sofar + PageSets(create, data).value
    ensures r.Success? ==> PageDone(data, |r.value.0|) == Success(r.value.1)
  {
    var more :- PageSets(create, data);
    var sets := sofar + more;
    var done :- PageDone(data, |sets|);
    Success((sets, done))
  }

  /** How a paginated search ends: with the sets, with an `HTTPError`, with another
      exception, or not within the replies given. */
  datatype PageEnd = Complete(sets: seq<Dict>) | TransportFailed(status: int) | Stopped(error: Error) | Unfinished

  /** How a search ends, and how many pages it requested. */
  datatype PageRun = PageRun(end: PageEnd, used: nat)

  /** The `while True` loop from page `i + 1` on, with `sofar` accumulated. */
  function Walk(create: Value -> Result<Dict, Error>, pages: seq<Reply>, i: nat, sofar: seq<Dict>): (run: PageRun)
    requires i <= |pages|
    ensures i <= run.used <= |pages|
    ensures i < |pages| ==> i < run.used
    ensures run.end.Unfinished? ==> run.used == |pages|
    decreases |pages| - i
  {
    if i == |pages| then PageRun(Unfinished, i)
    else
      match pages[i]
      case HttpFailure(status) => PageRun(TransportFailed(status), i + 1)
      case Body(data) =>
        match Step(create, data, sofar)
        case Failure(e) => PageRun(Stopped(e), i + 1)
        case Success((sets, done)) =>
          if done then PageRun(Complete(sets), i + 1) else Walk(create, pages, i + 1, sets)
  }

  /** One round of the loop: what a page that arrives as a body does to the walk. */
  lemma WalkBody(create: Value -> Result<Dict, Error>, pages: seq<Reply>, i: nat, sofar: seq<Dict>)
    requires i < |pages| && pages[i].Body?
    ensures
      var s := Step(create, pages[i].data, sofar);
      && (s.Failure? ==> Walk(create, pages, i, sofar) == PageRun(Stopped(s.error), i + 1))
      && (s.Success? && s.value.1 ==> Walk(create, pages, i, sofar) == PageRun(Complete(s.value.0), i + 1))
      && (s.Success? && !s.value.1 ==> Walk(create, pages, i, sofar) == Walk(create, pages, i + 1, s.value.0))
  {
  }

  /** The requests of the first `n` pages, page numbers counting from 1. */
  function Requested(build: int -> Request, n: nat): (r: seq<Request>)
    ensures |r| == n
    ensures forall j :: 0 <= j < n ==> r[j] == build(j + 1)
  {
    if n == 0 then [] else Requested(build, n - 1) + [build(n)]
  }

  /** The request `get_sets` sends for page number `page` of a catalogue search. */
  function CatalogueSearch(query: Value, setId: Value, setNumber: Option<SetNumber>, theme: Value,
                           subtheme: Value, year: Value, apiKey: Value): int -> Request
  {
    page => Lego.GetSets(query := query, setId := setId, setNumber := setNumber, theme := theme,
                         subtheme := subtheme, year := year, extendedData := true,
                         page := JInt(page), apiKey := apiKey)
  }

  /** The request `get_users_sets` sends for page number `page`. */
  function UserSearch(query: Value, setId: Value, setNumber: Option<SetNumber>, theme: Value,
                      subtheme: Value, year: Value, owned: bool, wanted: bool, userToken: Value,
                      apiKey: Value): int -> Request
  {
    page => Users.GetSets(query := query, setId := setId, setNumber := setNumber, theme := theme,
                          subtheme := subtheme, year := year, owned := owned, wanted := wanted,
                          extendedData := true, page := JInt(page), userToken := userToken,
                          apiKey := apiKey)
  }

  /** What the search returns: the sets; `None` or the re-raised `HTTPError` after
      `_on_error`; or another exception, which is not caught. */
  function PagedOutcome(silent: bool, end: PageEnd): (r: Outcome<seq<Dict>>)
    requires !end.Unfinished?
    ensures r == Returned(None) <==> end.TransportFailed? && silent
    ensures r.Returned? && r.value.Some? <==> end.Complete?
    ensures end.Complete? ==> r.value.value == end.sets
    ensures r.Raised? ==> r.error == if end.Stopped? then end.error else HttpError(end.status)
  {
    match end
    case Complete(sets) => Returned(Some(sets))
    case TransportFailed(status) => OnError(silent, HttpError(status))
    case Stopped(e) => Raised(e)
  }

  /** The reference: the concatenation, in page order, of the sets of the first `n` pages. */
  function Accumulated(create: Value -> Result<Dict, Error>, pages: seq<Reply>, n: nat): Result<seq<Dict>, Error>
    requires n <= |pages|
  {
    if n == 0 then Success([])
    else
      var before :- Accumulated(create, pages, n - 1);
      match pages[n - 1]
      case HttpFailure(status) => Failure(HttpError(status))
      case Body(data) =>
        var more :- PageSets(create, data);
        Success(before + more)
  }

  /** Pages 1 to `k` all answered, and each reported more matches than had been
      accumulated by then, so the loop went on to page `k + 1`. */
  predicate Continues(create: Value -> Result<Dict, Error>, pages: seq<Reply>, k: nat)
    decreases k
  {
    && k <= |pages|
    && (k > 0 ==>
          && Continues(create, pages, k - 1)
          && pages[k - 1].Body?
          && Accumulated(create, pages, k).Success?
          && PageDone(pages[k - 1].data, |Accumulated(create, pages, k).value|) == Success(false))
  }

  /** Page `n` is the first whose `matches` is at most the number of sets accumulated. */
  predicate Finishes(create: Value -> Result<Dict, Error>, pages: seq<Reply>, n: nat) {
    && 1 <= n <= |pages|
    && Continues(create, pages, n - 1)
    && pages[n - 1].Body?
    && Accumulated(create, pages, n).Success?
    && PageDone(pages[n - 1].data, |Accumulated(create, pages, n).value|) == Success(true)
  }

  /** After `k` pages that did not finish, the loop is where the reference says. */
  lemma {:induction false} WalkFrom(create: Value -> Result<Dict, Error>, pages: seq<Reply>, k: nat)
    requires Continues(create, pages, k)
    ensures Accumulated(create, pages, k).Success?
    ensures Walk(create, pages, 0, []) == Walk(create, pages, k, Accumulated(create, pages, k).value)
  {
    if k > 0 {
      WalkFrom(create, pages, k - 1);
    }
  }

  /** One pass of the loop at page `k + 1`, in terms of the reference. */
  lemma WalkAt(create: Value -> Result<Dict, Error>, pages: seq<Reply>, k: nat)
    requires k < |pages| && Continues(create, pages, k)
    ensures Accumulated(create, pages, k).Success?
    ensures
      var run := Walk(create, pages, k, Accumulated(create, pages, k).value);
      match pages[k]
      case HttpFailure(status) => run == PageRun(TransportFailed(status), k + 1)
      case Body(data) =>
        match Accumulated(create, pages, k + 1)
        case Failure(e) => run == PageRun(Stopped(e), k + 1)
        case Success(sets) =>
          match PageDone(data, |sets|)
          case Failure(e) => run == PageRun(Stopped(e), k + 1)
          case Success(done) =>
            if done then run == PageRun(Complete(sets), k + 1)
            else Continues(create, pages, k + 1) && run == Walk(create, pages, k + 1, sets)
  {
    if pages[k].Body? {
      var sofar := Accumulated(create, pages, k).value;
      var step := PageSets(create, pages[k].data);
      if step.Success? {
        assert Accumulated(create, pages, k + 1) == Success(sofar + step.value);
      }
    }
  }

  /** A loop that requests more than page `k + 1` went on from it as the reference says. */
  lemma WalkOn(create: Value -> Result<Dict, Error>, pages: seq<Reply>, k: nat)
    requires k < |pages| && Continues(create, pages, k)
    requires Walk(create, pages, k, Accumulated(create, pages, k).value).used > k + 1
    ensures Continues(create, pages, k + 1)
    ensures Walk(create, pages, k, Accumulated(create, pages, k).value)
            == Walk(create, pages, k + 1, Accumulated(create, pages, k + 1).value)
  {
    WalkAt(create, pages, k);
    assert pages[k].Body?;
    assert Accumulated(create, pages, k + 1).Success?;
  }

  /** A loop that stops at page `k + 1` with an `HTTPError` got it for that page. */
  lemma WalkEndsAt(create: Value -> Result<Dict, Error>, pages: seq<Reply>, k: nat)
    requires k < |pages| && Continues(create, pages, k)
    requires Walk(create, pages, k, Accumulated(create, pages, k).value).used == k + 1
    requires Walk(create, pages, k, Accumulated(create, pages, k).value).end.TransportFailed?
    ensures pages[k] == HttpFailure(Walk(create, pages, k, Accumulated(create, pages, k).value).end.status)
  {
    WalkAt(create, pages, k);
  }

  /** From any point the reference reaches, the loop ends with the reference's sets at the
      first page that finishes. */
  lemma {:induction false} WalkCompletes(create: Value -> Result<Dict, Error>, pages: seq<Reply>, k: nat)
    requires Continues(create, pages, k)
    requires Walk(create, pages, k, Accumulated(create, pages, k).value).end.Complete?
    ensures
      var run := Walk(create, pages, k, Accumulated(create, pages, k).value);
      Finishes(create, pages, run.used) && run.end.sets == Accumulated(create, pages, run.used).value
    decreases |pages| - k
  {
    if Walk(create, pages, k, Accumulated(create, pages, k).value).used > k + 1 {
      WalkOn(create, pages, k);
      WalkCompletes(create, pages, k + 1);
    } else {
      WalkAt(create, pages, k);
      assert pages[k].Body?;
    }
  }

  /** From any point the reference reaches, a loop that ends in an `HTTPError` gets it for
      a page requested after all earlier pages went on. */
  lemma {:induction false} WalkFails(create: Value -> Result<Dict, Error>, pages: seq<Reply>, k: nat)
    requires Continues(create, pages, k)
    requires Walk(create, pages, k, Accumulated(create, pages, k).value).end.TransportFailed?
    ensures
      var run := Walk(create, pages, k, Accumulated(create, pages, k).value);
      && k < run.used <= |pages|
      && Continues(create, pages, run.used - 1)
      && pages[run.used - 1] == HttpFailure(run.end.status)
    decreases |pages| - k
  {
    var run := Walk(create, pages, k, Accumulated(create, pages, k).value);
    if run.used > k + 1 {
      WalkOn(create, pages, k);
      WalkFails(create, pages, k + 1);
      assert run == Walk(create, pages, k + 1, Accumulated(create, pages, k + 1).value);
    } else {
      WalkEndsAt(create, pages, k);
    }
  }

  /** From any point the reference reaches, a loop that raises another exception does so at
      a page after all earlier pages went on, with the exception of that page's sets or of
      its `matches`. */
  lemma {:induction false} WalkStops(create: Value -> Result<Dict, Error>, pages: seq<Reply>, k: nat)
    requires Continues(create, pages, k)
    requires Walk(create, pages, k, Accumulated(create, pages, k).value).end.Stopped?
    ensures
      var run := Walk(create, pages, k, Accumulated(create, pages, k).value);
      && k < run.used <= |pages|
      && Continues(create, pages, run.used - 1)
      && pages[run.used - 1].Body?
      && (|| Accumulated(create, pages, run.used) == Failure(run.end.error)
          || (Accumulated(create, pages, run.used).Success? &&
              PageDone(pages[run.used - 1].data, |Accumulated(create, pages, run.used).value|) == Failure(run.end.error)))
    decreases |pages| - k
  {
    var run := Walk(create, pages, k, Accumulated(create, pages, k).value);
    if run.used > k + 1 {
      WalkOn(create, pages, k);
      WalkStops(create, pages, k + 1);
      assert run == Walk(create, pages, k + 1, Accumulated(create, pages, k + 1).value);
    } else {
      WalkAt(create, pages, k);
      assert pages[k].Body? && run.used - 1 == k;
    }
  }

  /** A search that completes has requested pages 1 to the first page that finishes it, and
      returns the concatenation of their sets. */
  lemma PaginationCompletes(create: Value -> Result<Dict, Error>, pages: seq<Reply>)
    requires Walk(create, pages, 0, []).end.Complete?
    ensures
      var run := Walk(create, pages, 0, []);
      Finishes(create, pages, run.used) && run.end.sets == Accumulated(create, pages, run.used).value
  {
    assert Accumulated(create, pages, 0) == Success([]);
    WalkCompletes(create, pages, 0);
  }

  /** Conversely, a page that finishes the search ends it with the concatenation of the sets
      of the pages up to it. */
  lemma PaginationFinishes(create: Value -> Result<Dict, Error>, pages: seq<Reply>, n: nat)
    requires Finishes(create, pages, n)
    ensures Walk(create, pages, 0, []) == PageRun(Complete(Accumulated(create, pages, n).value), n)
  {
    WalkFrom(create, pages, n - 1);
  }

  /** An `HTTPError` on a page the loop reaches ends the search there, whatever was
      accumulated before it. */
  lemma PaginationHttpFailure(create: Value -> Result<Dict, Error>, pages: seq<Reply>, k: nat)
    requires k < |pages| && Continues(create, pages, k) && pages[k].HttpFailure?
    ensures Walk(create, pages, 0, []) == PageRun(TransportFailed(pages[k].status), k + 1)
  {
    WalkFrom(create, pages, k);
  }

  /** And a search that ends in an `HTTPError` got it for the last page it requested, all
      earlier pages having gone on. */
  lemma PaginationFails(create: Value -> Result<Dict, Error>, pages: seq<Reply>)
    requires Walk(create, pages, 0, []).end.TransportFailed?
    ensures
      var n := Walk(create, pages, 0, []).used;
      1 <= n <= |pages| && Continues(create, pages, n - 1) && pages[n - 1] == HttpFailure(Walk(create, pages, 0, []).end.status)
  {
    assert Accumulated(create, pages, 0) == Success([]);
    WalkFails(create, pages, 0);
  }

  /*** Entities as values ***/

  /** The entities an outcome returns, if any. */
  function EntitiesOf(o: Outcome<seq<Entity>>): seq<Entity> {
    if o.Returned? && o.value.Some? then o.value.value else []
  }

  /** A getter's outcome, with its entities read as their attribute dictionaries, is `spec`. */
  predicate Shows(o: Outcome<seq<Entity>>, spec: Outcome<seq<Dict>>)
    reads set e | e in EntitiesOf(o)
  {
    match o
    case Raised(e) => spec == Raised(e)
    case Returned(None) => spec == Returned(None)
    case Returned(Some(es)) => spec == Returned(Some(Dicts(es)))
  }

  /** The same for a getter that returns one entity. */
  predicate ShowsOne(o: Outcome<Entity>, spec: Outcome<Dict>)
    reads if o.Returned? && o.value.Some? then {o.value.value} else {}
  {
    match o
    case Raised(e) => spec == Raised(e)
    case Returned(None) => spec == Returned(None)
    case Returned(Some(entity)) => spec == Returned(Some(entity.attrs))
  }

  /** `X.create` for every `x`: what `create` stands for in the append loop. */
  ghost predicate Creates(kind: Kind, create: Value -> Result<Dict, Error>) {
    forall x {:trigger Created(kind, x)} :: create(x) == Created(kind, x)
  }

  /** The append loop: creates an entity for each kept entry. `create` is `X.create` as a
      function value. */
  method CreateEach(kind: Kind, items: seq<Value>, filter: Filter, ghost create: Value -> Result<Dict, Error>)
    returns (r: Result<seq<Entity>, Error>)
    requires Creates(kind, create)
    ensures r.Success? <==> Collect(create, items, filter).Success?
    ensures r.Success? ==> Dicts(r.value) == Collect(create, items, filter).value
    ensures r.Failure? ==> r.error == Collect(create, items, filter).error
  {
    var made: seq<Entity> := [];
    var k := 0;
    while k < |items|
      invariant 0 <= k <= |items|
      invariant Collect(create, items[..k], filter) == Success(Dicts(made))
    {
      CollectStep(create, items, k, filter);
      var one := CreateKept(kind, filter, items[k], create);
      if one.Failure? {
        CollectPrefixFails(create, items, k + 1, filter);
        return Failure(one.error);
      }
      DictsAppend(made, one.value);
      made := made + one.value;
      k := k + 1;
    }
    assert items[..k] == items;
    return Success(made);
  }

  /** One pass of the append loop: the entity made from `item`, none when the filter skips
      it, or the exception. */
  method CreateKept(kind: Kind, filter: Filter, item: Value, ghost create: Value -> Result<Dict, Error>)
    returns (r: Result<seq<Entity>, Error>)
    requires Creates(kind, create)
    ensures r.Success? <==> CollectOne(create, filter, item).Success?
    ensures r.Success? ==> Dicts(r.value) == CollectOne(create, filter, item).value
    ensures r.Failure? ==> r.error == CollectOne(create, filter, item).error
  {
    var keep := Keeps(filter, item);
    if keep.Failure? {
      return Failure(keep.error);
    }
    if !keep.value {
      return Success([]);
    }
    var entity := Entity.Create(kind, item);
    if entity.Failure? {
      return Failure(entity.error);
    }
    assert Dicts([entity.value]) == [entity.value.attrs];
    return Success([entity.value]);
  }

  /** The body of the pagination loop after a reply arrives: `data['sets']`, the entities
      appended to `sets`, and `data['matches'] <= len(sets)`. */
  method ReadPage(data: Value, sets: seq<Entity>) returns (r: Result<(seq<Entity>, bool), Error>)
    ensures r.Success? <==> Step(Creator(Collection), data, Dicts(sets)).Success?
    ensures r.Success? ==>
              var (next, done) := Step(Creator(Collection), data, Dicts(sets)).value;
              Dicts(r.value.0) == next && r.value.1 == done
    ensures r.Failure? ==> r.error == Step(Creator(Collection), data, Dicts(sets)).error
  {
    var raw := Index(data, "sets");
    if raw.Failure? {
      return Failure(raw.error);
    }
    var items := Iterate(raw.value);
    if items.Failure? {
      return Failure(items.error);
    }
    var made := CreateEach(Collection, items.value, KeepAll, Creator(Collection));
    if made.Failure? {
      return Failure(made.error);
    }
    DictsAppend(sets, made.value);
    var next := sets + made.value;
    var matches := Index(data, "matches");
    if matches.Failure? {
      return Failure(matches.error);
    }
    var done := AtMost(matches.value, |next|);
    if done.Failure? {
      return Failure(done.error);
    }
    return Success((next, done.value));
  }

  /*** The facade ***/

  class Brickse {
    const apiKey: Value
    const silent: bool
    var userToken: Value

    /** `Brickse(api_key=None, user_token=None, silent=False)`. */
    constructor (apiKey: Value := JNull, userToken: Value := JNull, silent: bool := false)
      ensures this.apiKey == apiKey && this.userToken == userToken && this.silent == silent
    {
      this.apiKey := apiKey;
      this.userToken := userToken;
      this.silent := silent;
    }

    /** `login`: the stored token becomes the reply's `hash` (or `None`), which is also
        returned; when the call raises or is silenced, the stored token is unchanged. */
    method Login(username: Value, password: Value, reply: Reply) returns (r: Outcome<Value>, sent: Request)
      modifies this
      ensures sent == Users.GetToken(username, password, apiKey)
      ensures r == LoginOutcome(silent, reply)
      ensures r.Returned? && r.value.Some? ==> userToken == r.value.value
      ensures !(r.Returned? && r.value.Some?) ==> userToken == old(userToken)
    {
      sent := Users.GetToken(username, password, apiKey);
      match reply
      case HttpFailure(status) =>
        r := OnError(silent, HttpError(status));
      case Body(body) =>
        var hash := Get(body, "hash", JNull);
        if hash.Failure? {
          return Raised(hash.error), sent;
        }
        userToken := hash.value;
        r := Returned(Some(userToken));
    }

    /** The `while True` loop shared by `get_sets` and `get_users_sets`; `build(page)` is the
        request for page number `page`. Pages are requested as 1, 2, 3, ... */
    method Paginate(build: int -> Request, pages: seq<Reply>) returns (r: Outcome<seq<Entity>>, sent: seq<Request>)
      requires !Walk(Creator(Collection), pages, 0, []).end.Unfinished?
      ensures sent == Requested(build, Walk(Creator(Collection), pages, 0, []).used)
      ensures Shows(r, PagedOutcome(silent, Walk(Creator(Collection), pages, 0, []).end))
    {
      var sets: seq<Entity> := [];
      var page := 1;
      sent := [];
      while true
        invariant 1 <= page <= |pages| + 1
        invariant Walk(Creator(Collection), pages, page - 1, Dicts(sets)) == Walk(Creator(Collection), pages, 0, [])
        invariant sent == Requested(build, page - 1)
        decreases |pages| + 1 - page
      {
        if page - 1 == |pages| {
          assert false;
        }
        sent := sent + [build(page)];
        var next, stop := NextPage(pages, page - 1, sets);
        if stop.Some? {
          return stop.value, sent;
        }
        sets := next;
        page := page + 1;
      }
    }

    /** One pass of the pagination loop, for the reply to page `i + 1`: either the search
        ends there with `stop`, or it goes on with the entities `next`. */
    method NextPage(pages: seq<Reply>, i: nat, sets: seq<Entity>)
      returns (next: seq<Entity>, stop: Option<Outcome<seq<Entity>>>)
      requires i < |pages|
      ensures stop.Some? ==>
                var run := Walk(Creator(Collection), pages, i, Dicts(sets));
                && run.used == i + 1 && !run.end.Unfinished?
                && Shows(stop.value, PagedOutcome(silent, run.end))
      ensures stop.None? ==>
                Walk(Creator(Collection), pages, i, Dicts(sets)) == Walk(Creator(Collection), pages, i + 1, Dicts(next))
    {
      next := sets;
      var reply := pages[i];
      if reply.HttpFailure? {
        return next, Some(OnError(silent, HttpError(reply.status)));
      }
      WalkBody(Creator(Collection), pages, i, Dicts(sets));
      var step := ReadPage(reply.data, sets);
      if step.Failure? {
        return next, Some(Raised(step.error));
      }
      next := step.value.0;
      if step.value.1 {
        return next, Some(Returned(Some(next)));
      }
      stop := None;
    }

    /** `get_sets`: pages of a catalogue search with `extendedData` on; the request for page
        `j + 1` is `CatalogueSearch(...)(j + 1)`. */
    method GetSets(pages: seq<Reply>, query: Value := JNull, setId: Value := JNull,
                   setNumber: Option<SetNumber> := None, theme: Value := JNull,
                   subtheme: Value := JNull, year: Value := JNull)
      returns (r: Outcome<seq<Entity>>, sent: seq<Request>)
      requires !Walk(Creator(Collection), pages, 0, []).end.Unfinished?
      ensures sent == Requested(CatalogueSearch(query, setId, setNumber, theme, subtheme, year, apiKey),
                                Walk(Creator(Collection), pages, 0, []).used)
      ensures Shows(r, PagedOutcome(silent, Walk(Creator(Collection), pages, 0, []).end))
    {
      r, sent := Paginate(CatalogueSearch(query, setId, setNumber, theme, subtheme, year, apiKey), pages);
    }

    /** `get_users_sets`: pages of a search of the user's sets, with the stored token. */
    method GetUsersSets(pages: seq<Reply>, query: Value := JNull, setId: Value := JNull,
                        setNumber: Option<SetNumber> := None, theme: Value := JNull,
                        subtheme: Value := JNull, year: Value := JNull, owned: bool := false,
                        wanted: bool := false)
      returns (r: Outcome<seq<Entity>>, sent: seq<Request>)
      requires !Walk(Creator(Collection), pages, 0, []).end.Unfinished?
      ensures sent == Requested(UserSearch(query, setId, setNumber, theme, subtheme, year, owned,
                                           wanted, userToken, apiKey),
                                Walk(Creator(Collection), pages, 0, []).used)
      ensures Shows(r, PagedOutcome(silent, Walk(Creator(Collection), pages, 0, []).end))
    {
      r, sent := Paginate(UserSearch(query, setId, setNumber, theme, subtheme, year, owned, wanted,
                                     userToken, apiKey), pages);
    }

    /** `get_set`. */
    method GetSet(reply: Reply, setId: Value := JNull, setNumber: Option<SetNumber> := None)
      returns (r: Outcome<Entity>, sent: Request)
      ensures sent == Lego.GetSet(setId := setId, setNumber := setNumber, apiKey := apiKey)
      ensures ShowsOne(r, SetOutcome(silent, reply))
    {
      sent := Lego.GetSet(setId := setId, setNumber := setNumber, apiKey := apiKey);
      if reply.HttpFailure? {
        return OnError(silent, HttpError(reply.status)), sent;
      }
      var data := Get(reply.data, "sets", JNull);
      if data.Failure? {
        return Raised(data.error), sent;
      }
      if !Truthy(data.value) {
        return Returned(None), sent;
      }
      var first := First(data.value);
      if first.Failure? {
        return Raised(first.error), sent;
      }
      var created := Entity.Create(Collection, first.value);
      if created.Failure? {
        return Raised(created.error), sent;
      }
      return Returned(Some(created.value)), sent;
    }

    /** The part of a list getter after its request: `_on_error` for an HTTP error, then
        `.get(key, None)`, `None` for a falsy list, and the append loop. */
    method ListReply(reply: Reply, key: string, kind: Kind, filter: Filter) returns (r: Outcome<seq<Entity>>)
      ensures Shows(r, ListOutcome(silent, reply, key, kind, filter))
    {
      if reply.HttpFailure? {
        return OnError(silent, HttpError(reply.status));
      }
      var listed := Listed(reply.data, key);
      if listed.Failure? {
        return Raised(listed.error);
      }
      if listed.value.None? {
        return Returned(None);
      }
      var made := CreateEach(kind, listed.value.value, filter, Creator(kind));
      if made.Failure? {
        return Raised(made.error);
      }
      return Returned(Some(made.value));
    }

    /** `get_set_instructions`; `lookup` is the reply to the lookup by number, used only
        when no `set_id` is given. */
    method GetSetInstructions(lookup: Reply, reply: Reply, setId: Value := JNull,
                              setNumber: Option<SetNumber> := None)
      returns (r: Outcome<seq<Entity>>, sent: seq<Request>)
      ensures sent == InstructionsSent(silent, apiKey, setId, setNumber, lookup)
      ensures Shows(r, InstructionsOutcome(silent, setId, lookup, reply))
    {
      var id := setId;
      sent := [];
      if setId == JNull {
        var collection, request := GetSet(lookup, setNumber := setNumber);
        sent := [request];
        if collection.Raised? {
          return Raised(collection.error), sent;
        }
        if collection.value.None? {
          return Returned(None), sent;
        }
        id := collection.value.value.attrs["set_id"];
      }
      sent := sent + [Lego.GetSetInstructions(id, apiKey)];
      r := ListReply(reply, "instructions", Instructions, KeepAll);
    }

    /** `get_themes`. */
    method GetThemes(reply: Reply) returns (r: Outcome<seq<Entity>>, sent: Request)
      ensures sent == Lego.GetThemes(apiKey)
      ensures Shows(r, ListOutcome(silent, reply, "themes", Theme, KeepAll))
    {
      sent := Lego.GetThemes(apiKey);
      r := ListReply(reply, "themes", Theme, KeepAll);
    }

    /** `get_subthemes`: entries whose `subtheme` is `'{None}'` are skipped. */
    method GetSubthemes(theme: Value, reply: Reply) returns (r: Outcome<seq<Entity>>, sent: Request)
      ensures sent == Lego.GetSubthemes(theme, apiKey)
      ensures Shows(r, ListOutcome(silent, reply, "subthemes", Theme, SkipNoneSubthemes))
    {
      sent := Lego.GetSubthemes(theme, apiKey);
      r := ListReply(reply, "subthemes", Theme, SkipNoneSubthemes);
    }

    /** `get_users_minifigs`: the request carries the stored credentials only; `query`,
        `owned` and `wanted` are accepted and not forwarded. */
    method GetUsersMinifigs(reply: Reply, query: Value := JNull, owned: bool := false, wanted: bool := false)
      returns (r: Outcome<seq<Entity>>, sent: Request)
      ensures sent == Users.GetMinifigs(userToken := userToken, apiKey := apiKey)
      ensures Block(sent) == map["owned" := JInt(0), "wanted" := JInt(0)]
      ensures Shows(r, ListOutcome(silent, reply, "minifigs", Minifig, KeepAll))
    {
      sent := Users.GetMinifigs(userToken := userToken, apiKey := apiKey);
      r := ListReply(reply, "minifigs", Minifig, KeepAll);
    }
  }

  /** The attributes of two runs of entities, one after the other. */
  lemma {:induction false} DictsAppend(a: seq<Entity>, b: seq<Entity>)
    ensures Dicts(a + b) == Dicts(a) + Dicts(b)
  {
    var ab := a + b;
    assert |Dicts(ab)| == |Dicts(a) + Dicts(b)|;
    forall i | 0 <= i < |ab|
      ensures Dicts(ab)[i] == (Dicts(a) + Dicts(b))[i]
    {
      if i < |a| {
        assert ab[i] == a[i];
      } else {
        assert ab[i] == b[i - |a|];
      }
    }
  }
}

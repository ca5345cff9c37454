/** The catalogue endpoints of `api_lego.py`: each builds the parameters of one request.
    `request` itself, and the server behind it, are not part of this model; the result is
    the call those functions make. Optional arguments keep their Python defaults. */
module ApiLego {
  import opened Wrappers
  import opened Json
  import opened Params

  /** The keys `get_sets` may put into its params block. */
  const SearchKeys: set<string> :=
    {"query", "setID", "setNumber", "theme", "subtheme", "year", "extendedData",
     "pageNumber", "pageSize", "orderBy"}

  /** The candidate params of `get_sets`, before the `None` values are dropped. */
  function SearchCandidates(query: Value, setId: Value, setNumber: Option<SetNumber>, theme: Value,
                            subtheme: Value, year: Value, extendedData: bool, page: Value,
                            pageSize: Value, ordering: Value): (m: map<string, Value>)
    ensures m.Keys == SearchKeys
    ensures m["query"] == query && m["setID"] == setId
    ensures m["setNumber"] == NumberValue(Normalise(setNumber))
    ensures m["theme"] == theme && m["subtheme"] == subtheme && m["year"] == year
    ensures m["extendedData"] == JInt(Bit(extendedData))
    ensures m["pageNumber"] == page && m["pageSize"] == pageSize && m["orderBy"] == ordering
  {
    map["query" := query, "setID" := setId, "setNumber" := NumberValue(Normalise(setNumber)),
        "theme" := theme, "subtheme" := subtheme, "year" := year,
        "extendedData" := JInt(Bit(extendedData)), "pageNumber" := page,
        "pageSize" := pageSize, "orderBy" := ordering]
  }

  /** `get_sets`: an anonymous POST to `getSets` whose block carries exactly the filters
      that are not `None`, unchanged except for the set-number variant, and always
      `extendedData` as 0 or 1. */
  function GetSets(query: Value := JNull, setId: Value := JNull, setNumber: Option<SetNumber> := None,
                   theme: Value := JNull, subtheme: Value := JNull, year: Value := JNull,
                   extendedData: bool := false, page: Value := JNull, pageSize: Value := JNull,
                   ordering: Value := JNull, apiKey: Value := JNull): (r: Request)
    ensures r.endpoint == "getSets" && r.post
    ensures r.args.Keys == {"params", "userHash", "apiKey"}
    ensures r.args["userHash"] == Plain(JStr("")) && r.args["apiKey"] == Plain(apiKey)
    ensures r.args["params"].Encoded? && Sparse(Block(r), SearchKeys)
    ensures
      var b := Block(r);
      && Lookup(b, "query") == query && Lookup(b, "setID") == setId
      && Lookup(b, "setNumber") == NumberValue(Normalise(setNumber))
      && Lookup(b, "theme") == theme && Lookup(b, "subtheme") == subtheme && Lookup(b, "year") == year
      && Lookup(b, "pageNumber") == page && Lookup(b, "pageSize") == pageSize
      && Lookup(b, "orderBy") == ordering
    ensures "extendedData" in Block(r) && Block(r)["extendedData"] == JInt(Bit(extendedData))
  {
    var candidates := SearchCandidates(query, setId, setNumber, theme, subtheme, year,
                                       extendedData, page, pageSize, ordering);
    DropNoneInvisible(candidates);
    var params := DropNone(candidates);
    Request("getSets", map["params" := Encoded(params), "userHash" := Plain(JStr("")),
                           "apiKey" := Plain(apiKey)], true)
  }

  /** `get_set`: normalises the number, then calls `get_sets` with the id, the number and
      `extended_data` (true by default). As normalising is idempotent, the request is the
      one `get_sets` sends for the raw number, and it carries no other filter. */
  function GetSet(setId: Value := JNull, setNumber: Option<SetNumber> := None,
                  extendedData: bool := true, apiKey: Value := JNull): (r: Request)
    ensures r == GetSets(setId := setId, setNumber := setNumber, extendedData := extendedData,
                         apiKey := apiKey)
    ensures Block(r).Keys <= {"setID", "setNumber", "extendedData"}
  {
    NormaliseIdempotent(setNumber);
    GetSets(setId := setId, setNumber := Normalise(setNumber), extendedData := extendedData,
            apiKey := apiKey)
  }

  /** A GET request to `endpoint` carrying one set id and the API key. */
  predicate SetQuery(r: Request, endpoint: string, setId: Value, apiKey: Value) {
    && r.endpoint == endpoint && !r.post
    && r.args == map["setID" := Plain(setId), "apiKey" := Plain(apiKey)]
  }

  /** `get_set_images`. */
  function GetSetImages(setId: Value, apiKey: Value := JNull): (r: Request)
    ensures SetQuery(r, "getAdditionalImages", setId, apiKey)
  {
    Request("getAdditionalImages", map["setID" := Plain(setId), "apiKey" := Plain(apiKey)], false)
  }

  /** `get_set_instructions`. */
  function GetSetInstructions(setId: Value, apiKey: Value := JNull): (r: Request)
    ensures SetQuery(r, "getInstructions", setId, apiKey)
  {
    Request("getInstructions", map["setID" := Plain(setId), "apiKey" := Plain(apiKey)], false)
  }

  /** `get_set_reviews`. */
  function GetSetReviews(setId: Value, apiKey: Value := JNull): (r: Request)
    ensures SetQuery(r, "getReviews", setId, apiKey)
  {
    Request("getReviews", map["setID" := Plain(setId), "apiKey" := Plain(apiKey)], false)
  }

  /** `get_themes`: a GET to `getThemes` with the API key alone. */
  function GetThemes(apiKey: Value := JNull): (r: Request)
    ensures r.endpoint == "getThemes" && !r.post && r.args == map["apiKey" := Plain(apiKey)]
  {
    Request("getThemes", map["apiKey" := Plain(apiKey)], false)
  }

  /** `get_subthemes`: a POST to `getSubthemes` with the theme under `Theme`. */
  function GetSubthemes(theme: Value, apiKey: Value := JNull): (r: Request)
    ensures r.endpoint == "getSubthemes" && r.post
    ensures r.args == map["Theme" := Plain(theme), "apiKey" := Plain(apiKey)]
  {
    Request("getSubthemes", map["Theme" := Plain(theme), "apiKey" := Plain(apiKey)], true)
  }

  /** `get_theme_years`: `Theme` is never `None`; a falsy theme is sent as `""`, any other
      as it is. */
  function GetThemeYears(theme: Value := JNull, apiKey: Value := JNull): (r: Request)
    ensures r.endpoint == "getYears" && r.post
    ensures r.args.Keys == {"Theme", "apiKey"} && r.args["apiKey"] == Plain(apiKey)
    ensures r.args["Theme"].Plain? && r.args["Theme"].v != JNull
    ensures Truthy(theme) ==> r.args["Theme"] == Plain(theme)
    ensures !Truthy(theme) ==> r.args["Theme"] == Plain(JStr(""))
  {
    Request("getYears", map["Theme" := Plain(if Truthy(theme) then theme else JStr("")),
                            "apiKey" := Plain(apiKey)], true)
  }
}

/** The account endpoints of `api_users.py`: each builds the parameters of one POST request.
    `assert_user_token` is not part of this model; its result is kept as the token it was
    given (`UserHash`). */
module ApiUsers {
  import opened Wrappers
  import opened Json
  import opened Params
  import ApiLego

  /** `get_token`: sends exactly the user name, the password and the API key to `login`. */
  function GetToken(username: Value, password: Value, apiKey: Value := JNull): (r: Request)
    ensures r.endpoint == "login" && r.post
    ensures r.args == map["username" := Plain(username), "password" := Plain(password),
                          "apiKey" := Plain(apiKey)]
  {
    Request("login", map["username" := Plain(username), "password" := Plain(password),
                         "apiKey" := Plain(apiKey)], true)
  }

  /** `check_token`: sends the token itself as `userHash`, with the API key. */
  function CheckToken(token: Value, apiKey: Value := JNull): (r: Request)
    ensures r.endpoint == "checkUserHash" && r.post
    ensures r.args == map["userHash" := Plain(token), "apiKey" := Plain(apiKey)]
  {
    Request("checkUserHash", map["userHash" := Plain(token), "apiKey" := Plain(apiKey)], true)
  }

  /** The keys the user `get_sets` may put into its params block. */
  const UserSearchKeys: set<string> := ApiLego.SearchKeys + {"owned", "wanted"}

  /** `get_sets` for the user's own sets: the catalogue block plus `owned` and `wanted`, each
      always present as 0 or 1, sent with the user's hash. */
  function GetSets(query: Value := JNull, setId: Value := JNull, setNumber: Option<SetNumber> := None,
                   theme: Value := JNull, subtheme: Value := JNull, year: Value := JNull,
                   owned: bool := false, wanted: bool := false, extendedData: bool := false,
                   page: Value := JNull, pageSize: Value := JNull, ordering: Value := JNull,
                   userToken: Value := JNull, apiKey: Value := JNull): (r: Request)
    ensures r.endpoint == "getSets" && r.post
    ensures r.args.Keys == {"params", "userHash", "apiKey"}
    ensures r.args["userHash"] == UserHash(userToken) && r.args["apiKey"] == Plain(apiKey)
    ensures r.args["params"].Encoded? && Sparse(Block(r), UserSearchKeys)
    ensures
      var b := Block(r);
      && "owned" in b && b["owned"] == JInt(Bit(owned))
      && "wanted" in b && b["wanted"] == JInt(Bit(wanted))
      && "extendedData" in b && b["extendedData"] == JInt(Bit(extendedData))
  {
    var base := ApiLego.SearchCandidates(query, setId, setNumber, theme, subtheme, year,
                                         extendedData, page, pageSize, ordering);
    var candidates := base["owned" := JInt(Bit(owned))]["wanted" := JInt(Bit(wanted))];
    FlagsBlock(base, JInt(Bit(owned)), JInt(Bit(wanted)));
    Request("getSets", map["params" := Encoded(DropNone(candidates)),
                           "userHash" := UserHash(userToken), "apiKey" := Plain(apiKey)], true)
  }

  /** The block of a user search, on any candidates that carry `extendedData`. */
  lemma FlagsBlock(base: map<string, Value>, owned: Value, wanted: Value)
    requires owned != JNull && wanted != JNull
    requires "extendedData" in base && base["extendedData"] != JNull
    ensures
      var b := DropNone(base["owned" := owned]["wanted" := wanted]);
      && Sparse(b, base.Keys + {"owned", "wanted"})
      && "owned" in b && b["owned"] == owned && "wanted" in b && b["wanted"] == wanted
      && "extendedData" in b && b["extendedData"] == base["extendedData"]
  {
    DropNoneInvisible(base["owned" := owned]["wanted" := wanted]);
  }

  /** The user search differs from the catalogue search with the same filters only in its
      hash and in the `owned` and `wanted` flags its block adds. */
  lemma UserSearchExtendsCatalogue(query: Value, setId: Value, setNumber: Option<SetNumber>,
                                   theme: Value, subtheme: Value, year: Value, owned: bool,
                                   wanted: bool, extendedData: bool, page: Value,
                                   pageSize: Value, ordering: Value, userToken: Value,
                                   apiKey: Value)
    ensures
      var user := GetSets(query, setId, setNumber, theme, subtheme, year, owned, wanted,
                          extendedData, page, pageSize, ordering, userToken, apiKey);
      var anonymous := ApiLego.GetSets(query, setId, setNumber, theme, subtheme, year,
                                       extendedData, page, pageSize, ordering, apiKey);
      && user.args == anonymous.args["userHash" := UserHash(userToken)]
                                    ["params" := Encoded(Block(anonymous)["owned" := JInt(Bit(owned))]
                                                                          ["wanted" := JInt(Bit(wanted))])]
      && user.endpoint == anonymous.endpoint && user.post == anonymous.post
  {
    var base := ApiLego.SearchCandidates(query, setId, setNumber, theme, subtheme, year,
                                         extendedData, page, pageSize, ordering);
    FlagsAdded(base, JInt(Bit(owned)), JInt(Bit(wanted)), UserHash(userToken), Plain(apiKey));
  }

  /** Adding the two flags to the candidates and swapping the hash, on any block. */
  lemma FlagsAdded(base: map<string, Value>, owned: Value, wanted: Value, hash: Arg, apiKey: Arg)
    requires owned != JNull && wanted != JNull
    ensures map["params" := Encoded(DropNone(base["owned" := owned]["wanted" := wanted])),
                "userHash" := hash, "apiKey" := apiKey]
            == map["params" := Encoded(DropNone(base)), "userHash" := Plain(JStr("")), "apiKey" := apiKey]
                  ["userHash" := hash]["params" := Encoded(DropNone(base)["owned" := owned]["wanted" := wanted])]
  {
    DropNoneAdd(base, "owned", owned);
    DropNoneAdd(base["owned" := owned], "wanted", wanted);
  }

  /** `get_sets_notes`. */
  function GetSetsNotes(userToken: Value := JNull, apiKey: Value := JNull): (r: Request)
    ensures r.endpoint == "getUserNotes" && r.post
    ensures r.args == map["userHash" := UserHash(userToken), "apiKey" := Plain(apiKey)]
  {
    Request("getUserNotes", map["userHash" := UserHash(userToken), "apiKey" := Plain(apiKey)], true)
  }

  /** `get_minifigs`: the block always carries `owned` and `wanted` as 0 or 1, and `query`
      exactly when it is not `None`. */
  function GetMinifigs(query: Value := JNull, owned: bool := false, wanted: bool := false,
                       userToken: Value := JNull, apiKey: Value := JNull): (r: Request)
    ensures r.endpoint == "getMinifigCollection" && r.post
    ensures r.args.Keys == {"params", "userHash", "apiKey"}
    ensures r.args["userHash"] == UserHash(userToken) && r.args["apiKey"] == Plain(apiKey)
    ensures r.args["params"].Encoded? && Sparse(Block(r), {"query", "owned", "wanted"})
    ensures
      var b := Block(r);
      && ("query" in b <==> query != JNull) && Lookup(b, "query") == query
      && "owned" in b && b["owned"] == JInt(Bit(owned))
      && "wanted" in b && b["wanted"] == JInt(Bit(wanted))
  {
    var candidates := map["query" := query, "owned" := JInt(Bit(owned)), "wanted" := JInt(Bit(wanted))];
    DropNoneInvisible(candidates);
    Request("getMinifigCollection", map["params" := Encoded(DropNone(candidates)),
                                        "userHash" := UserHash(userToken), "apiKey" := Plain(apiKey)], true)
  }

  /** `get_minifigs_notes`. */
  function GetMinifigsNotes(userToken: Value := JNull, apiKey: Value := JNull): (r: Request)
    ensures r.endpoint == "getUserMinifigNotes" && r.post
    ensures r.args == map["userHash" := UserHash(userToken), "apiKey" := Plain(apiKey)]
  {
    Request("getUserMinifigNotes", map["userHash" := UserHash(userToken), "apiKey" := Plain(apiKey)], true)
  }
}

/** What the request builders of `api_lego.py` and `api_users.py` share: the default-variant
    rule for set numbers, `int(flag)`, the comprehension that drops `None` values, and the
    shape of the call they end in, `request(config.API_URL + endpoint, parameters, post)`. */
module Params {
  import opened Wrappers
  import opened Json

  /** A set number as callers pass it: an `int` (`10179`) or a `str` (`"10179-1"`). */
  datatype SetNumber = Number(n: int) | Text(s: string)

  /** `str(set_number)`. */
  function Str(x: SetNumber): string {
    match x
    case Number(n) => IntString(n)
    case Text(s) => s
  }

  /** Truthiness of a set number: `0` and `""` are false. */
  predicate NumberTruthy(x: SetNumber) {
    match x
    case Number(n) => n != 0
    case Text(s) => s != []
  }

  /** The set number as it goes into the params block (`None` when absent). */
  function NumberValue(x: Option<SetNumber>): Value {
    match x
    case None => JNull
    case Some(Number(n)) => JInt(n)
    case Some(Text(s)) => JStr(s)
  }

  /** The variant rule at the head of the set builders: a truthy number whose text has no `-`
      becomes that text followed by `-1`; every other number is left as it is. */
  function Normalise(x: Option<SetNumber>): (r: Option<SetNumber>)
    ensures r != x <==> x.Some? && NumberTruthy(x.value) && '-' !in Str(x.value)
    ensures r != x ==> r == Some(Text(Str(x.value) + "-1"))
    ensures x.Some? && NumberTruthy(x.value) ==> '-' in Str(r.value)
  {
    match x
    case Some(n) =>
      if NumberTruthy(n) && '-' !in Str(n) then
        assert (Str(n) + "-1")[|Str(n)|] == '-';
        Some(Text(Str(n) + "-1"))
      else x
    case None => x
  }

  /** Normalising twice is normalising once. */
  lemma NormaliseIdempotent(x: Option<SetNumber>)
    ensures Normalise(Normalise(x)) == Normalise(x)
  {
    var r := Normalise(x);
    if r != x {
      assert Str(r.value)[|Str(x.value)|] == '-';
    }
  }

  /** `int(flag)` for a boolean. */
  function Bit(b: bool): (i: int)
    ensures 0 <= i <= 1
    ensures i == 1 <==> b
  {
    if b then 1 else 0
  }

  /** `{k: v for k, v in params.items() if v is not None}`. */
  function DropNone(m: map<string, Value>): (r: map<string, Value>)
    ensures forall k :: k in r <==> k in m && m[k] != JNull
    ensures forall k :: k in r ==> r[k] == m[k]
  {
    map k | k in m && m[k] != JNull :: m[k]
  }

  /** What the server reads for `key` from a params block, a missing key reading as `None`. */
  function Lookup(block: map<string, Value>, key: string): Value {
    if key in block then block[key] else JNull
  }

  /** Dropping the `None` values loses nothing a reader of the block can see, and leaves
      no `None` behind. */
  lemma DropNoneInvisible(m: map<string, Value>)
    ensures forall key :: Lookup(DropNone(m), key) == Lookup(m, key)
    ensures Sparse(DropNone(m), m.Keys)
  {
  }

  /** A value that is not `None` survives the filter wherever it is added. */
  lemma DropNoneAdd(m: map<string, Value>, key: string, v: Value)
    requires v != JNull
    ensures DropNone(m[key := v]) == DropNone(m)[key := v]
  {
    assert DropNone(m[key := v]).Keys == DropNone(m)[key := v].Keys;
  }

  /** One entry of the `parameters` dict handed to `request`: a plain value, the
      `json.dumps` of a params block (kept as the block itself), or the result of
      `assert_user_token(token)` (kept as the token it was given). */
  datatype Arg = Plain(v: Value) | Encoded(block: map<string, Value>) | UserHash(token: Value)

  /** A call `request(config.API_URL + endpoint, args, post=post)`. */
  datatype Request = Request(endpoint: string, args: map<string, Arg>, post: bool)

  /** The params block of a request that carries one. */
  function Block(r: Request): map<string, Value>
    requires "params" in r.args && r.args["params"].Encoded?
  {
    r.args["params"].block
  }

  /** The block has no `None` values and only the given keys. */
  predicate Sparse(block: map<string, Value>, candidates: set<string>) {
    block.Keys <= candidates && forall k :: k in block ==> block[k] != JNull
  }
}

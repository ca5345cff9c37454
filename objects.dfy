/** The plain records BrickSet's JSON is mapped onto: `Collection` (a set), `Theme`,
    `Instructions` and `Minifig`, all subclasses of `_Entity`.

    An instance is an `Entity` object: `kind` says which subclass it is and `attrs` is
    its attribute dictionary. Each subclass's `__init__` first sets every attribute it
    declares to None (`Defaults`), then `_Entity.__init__` assigns the keyword arguments
    one by one, refusing a name the instance lacks (`SetAttributes`). The `create`
    static methods only compute keyword arguments from JSON data (`Kwargs`); `Created`
    is the attribute dictionary the whole construction ends with. */
module Objects {
  import opened Wrappers
  import opened Chars
  import opened Json
  import opened Patterns

  datatype Kind = Collection | Theme | Instructions | Minifig

  /** The attributes the subclass's `__init__` declares. */
  function Declared(kind: Kind): set<string> {
    match kind
    case Collection =>
      {"set_id", "number", "variant", "name", "category", "group", "theme", "subtheme", "year", "released", "image_url"}
    case Theme => {"name", "parent", "subthemes", "sets", "year_from", "year_to"}
    case Instructions => {"description", "url", "version", "part", "parts"}
    case Minifig => {"minifig_id", "name", "category", "owned_in_sets", "owned_loose", "owned_total", "wanted"}
  }

  /** The attribute dictionary before `_Entity.__init__` runs: every declared attribute is None. */
  function Defaults(kind: Kind): (d: Dict)
    ensures d.Keys == Declared(kind)
    ensures forall n :: n in d ==> d[n] == JNull
  {
    map n | n in Declared(kind) :: JNull
  }

  /** Keyword arguments, in the order they are written. */
  type Keywords = seq<(string, Value)>

  /*** _Entity.__init__ ***/

  /** `_Entity.__init__` on an instance whose attributes are `attrs`: each keyword in turn
      is assigned when the instance has that attribute; the first one it lacks raises
      `AttributeError`. */
  function ApplyAttrs(attrs: Dict, kwargs: Keywords): (r: Result<Dict, Error>)
    ensures r.Success? ==> r.value.Keys == attrs.Keys
    ensures r.Failure? ==> r.error.AttributeError? && r.error.name !in attrs
  {
    if kwargs == [] then Success(attrs)
    else if kwargs[0].0 in attrs then ApplyAttrs(attrs[kwargs[0].0 := kwargs[0].1], kwargs[1..])
    else Failure(AttributeError(kwargs[0].0))
  }

  /** Construction fails exactly when some keyword names an attribute the instance lacks,
      and the error names the first such keyword. */
  lemma {:induction false} ApplyAttrsFails(attrs: Dict, kwargs: Keywords)
    ensures ApplyAttrs(attrs, kwargs).Failure? <==> exists i :: 0 <= i < |kwargs| && kwargs[i].0 !in attrs
    ensures ApplyAttrs(attrs, kwargs).Failure? ==>
      exists i :: 0 <= i < |kwargs| && kwargs[i].0 !in attrs &&
        ApplyAttrs(attrs, kwargs).error == AttributeError(kwargs[i].0) &&
        forall j :: 0 <= j < i ==> kwargs[j].0 in attrs
  {
    if kwargs != [] && kwargs[0].0 in attrs {
      var next := attrs[kwargs[0].0 := kwargs[0].1];
      ApplyAttrsFails(next, kwargs[1..]);
      if ApplyAttrs(attrs, kwargs).Failure? {
        var i :| 0 <= i < |kwargs[1..]| && kwargs[1..][i].0 !in next &&
          ApplyAttrs(next, kwargs[1..]).error == AttributeError(kwargs[1..][i].0) &&
          forall j :: 0 <= j < i ==> kwargs[1..][j].0 in next;
        assert kwargs[i + 1] == kwargs[1..][i];
        forall j | 0 <= j < i + 1 ensures kwargs[j].0 in attrs {
          if j > 0 {
            assert kwargs[j] == kwargs[1..][j - 1];
          }
        }
      } else {
        forall i | 0 <= i < |kwargs| ensures kwargs[i].0 in attrs {
          if i > 0 {
            assert kwargs[i] == kwargs[1..][i - 1];
          }
        }
      }
    }
  }

  /** A successful construction leaves every attribute no keyword names as it was. */
  lemma {:induction false} ApplyAttrsKeeps(attrs: Dict, kwargs: Keywords, n: string)
    requires ApplyAttrs(attrs, kwargs).Success? && n in attrs
    requires forall i :: 0 <= i < |kwargs| ==> kwargs[i].0 != n
    ensures ApplyAttrs(attrs, kwargs).value[n] == attrs[n]
  {
    if kwargs != [] {
      var rest := kwargs[1..];
      assert kwargs[0].0 != n;
      assert forall i :: 0 <= i < |rest| ==> rest[i] == kwargs[i + 1];
      ApplyAttrsKeeps(attrs[kwargs[0].0 := kwargs[0].1], rest, n);
    }
  }

  /** A successful construction gives the attribute of the keyword at `i` that keyword's
      value, when no later keyword has the same name. */
  lemma {:induction false} ApplyAttrsAssigns(attrs: Dict, kwargs: Keywords, i: nat)
    requires ApplyAttrs(attrs, kwargs).Success? && i < |kwargs|
    requires forall j :: i < j < |kwargs| ==> kwargs[j].0 != kwargs[i].0
    ensures kwargs[i].0 in ApplyAttrs(attrs, kwargs).value
    ensures ApplyAttrs(attrs, kwargs).value[kwargs[i].0] == kwargs[i].1
  {
    var next := attrs[kwargs[0].0 := kwargs[0].1];
    var rest := kwargs[1..];
    assert forall j :: 0 <= j < |rest| ==> rest[j] == kwargs[j + 1];
    if i == 0 {
      ApplyAttrsKeeps(next, rest, kwargs[0].0);
    } else {
      ApplyAttrsAssigns(next, rest, i - 1);
    }
  }

  /** One more keyword after a prefix that went through: assigned when the instance has
      it, the `AttributeError` otherwise. */
  lemma {:induction false} ApplyAttrsSnoc(attrs: Dict, kwargs: Keywords, kv: (string, Value))
    requires ApplyAttrs(attrs, kwargs).Success?
    ensures ApplyAttrs(attrs, kwargs + [kv]) ==
      if kv.0 in attrs then Success(ApplyAttrs(attrs, kwargs).value[kv.0 := kv.1])
      else Failure(AttributeError(kv.0))
  {
    if kwargs == [] {
      assert [kv][1..] == [];
    } else {
      assert (kwargs + [kv])[1..] == kwargs[1..] + [kv];
      ApplyAttrsSnoc(attrs[kwargs[0].0 := kwargs[0].1], kwargs[1..], kv);
    }
  }

  /** Every keyword names one of `declared` and no name repeats, as with the keyword
      arguments each `create` passes. */
  predicate WellNamed(kwargs: Keywords, declared: set<string>) {
    && (forall i :: 0 <= i < |kwargs| ==> kwargs[i].0 in declared)
    && (forall i, j :: 0 <= i < j < |kwargs| ==> kwargs[i].0 != kwargs[j].0)
  }

  /** Keywords that all name declared attributes always construct, and each sets its own attribute. */
  lemma ApplyAttrsWellNamed(attrs: Dict, kwargs: Keywords)
    requires WellNamed(kwargs, attrs.Keys)
    ensures ApplyAttrs(attrs, kwargs).Success?
    ensures forall i :: 0 <= i < |kwargs| ==> ApplyAttrs(attrs, kwargs).value[kwargs[i].0] == kwargs[i].1
  {
    ApplyAttrsFails(attrs, kwargs);
    forall i | 0 <= i < |kwargs| ensures ApplyAttrs(attrs, kwargs).value[kwargs[i].0] == kwargs[i].1 {
      ApplyAttrsAssigns(attrs, kwargs, i);
    }
  }

  /*** Entity objects ***/

  /** An instance of a subclass of `_Entity`. */
  class Entity {
    const kind: Kind
    var attrs: Dict

    /** The subclass `__init__` up to its call of `super().__init__`. */
    constructor (kind: Kind)
      ensures this.kind == kind && attrs == Defaults(kind)
    {
      this.kind := kind;
      attrs := Defaults(kind);
    }

    /** `_Entity.__init__`: `setattr` for each keyword the instance has (`hasattr`),
        `AttributeError` at the first one it lacks. On a failure the keywords before that
        one stay assigned. */
    method SetAttributes(kwargs: Keywords) returns (err: Option<Error>)
      modifies this
      ensures err.None? <==> ApplyAttrs(old(attrs), kwargs).Success?
      ensures err.None? ==> attrs == ApplyAttrs(old(attrs), kwargs).value
      ensures err.Some? ==> err.value == ApplyAttrs(old(attrs), kwargs).error
      ensures err.Some? ==>
        exists i :: 0 <= i < |kwargs| && kwargs[i].0 !in attrs &&
          ApplyAttrs(old(attrs), kwargs[..i]) == Success(attrs)
    {
      var i := 0;
      while i < |kwargs|
        invariant 0 <= i <= |kwargs|
        invariant ApplyAttrs(attrs, kwargs[i..]) == ApplyAttrs(old(attrs), kwargs)
        invariant ApplyAttrs(old(attrs), kwargs[..i]) == Success(attrs)
      {
        var (name, value) := kwargs[i];
        assert kwargs[i..][0] == (name, value) && kwargs[i..][1..] == kwargs[i + 1..];
        if name !in attrs {
          return Some(AttributeError(name));
        }
        ApplyAttrsSnoc(old(attrs), kwargs[..i], (name, value));
        assert kwargs[..i + 1] == kwargs[..i] + [(name, value)];
        attrs := attrs[name := value];
        i := i + 1;
      }
      return None;
    }

    /** `Collection(**kwargs)` and its siblings: the subclass `__init__`, then `_Entity.__init__`. */
    static method New(kind: Kind, kwargs: Keywords) returns (r: Result<Entity, Error>)
      ensures r.Success? <==> ApplyAttrs(Defaults(kind), kwargs).Success?
      ensures r.Success? ==> fresh(r.value) && r.value.kind == kind
      ensures r.Success? ==> r.value.attrs == ApplyAttrs(Defaults(kind), kwargs).value
      ensures r.Failure? ==> r.error == ApplyAttrs(Defaults(kind), kwargs).error
    {
      var e := new Entity(kind);
      var err := e.SetAttributes(kwargs);
      if err.Some? {
        return Failure(err.value);
      }
      return Success(e);
    }

    /** `Collection.create(data)`, `Theme.create(data)`, `Instructions.create(data)` and
        `Minifig.create(data)`. */
    static method Create(kind: Kind, data: Value) returns (r: Result<Entity, Error>)
      ensures r.Success? <==> Created(kind, data).Success?
      ensures r.Success? ==> fresh(r.value) && r.value.kind == kind && r.value.attrs == Created(kind, data).value
      ensures r.Failure? ==> r.error == Created(kind, data).error
    {
      var kwargs := Kwargs(kind, data);
      if kwargs.Failure? {
        return Failure(kwargs.error);
      }
      r := New(kind, kwargs.value);
    }
  }

  /** The attribute dictionaries of a list of entities, in order. */
  function Dicts(es: seq<Entity>): (ds: seq<Dict>)
    reads set e | e in es
    ensures |ds| == |es| && forall i :: 0 <= i < |es| ==> ds[i] == es[i].attrs
  {
    if es == [] then [] else Dicts(es[..|es| - 1]) + [es[|es| - 1].attrs]
  }

  /*** The create static methods ***/

  /** The keyword arguments `create` passes, or what evaluating them raises. */
  function Kwargs(kind: Kind, data: Value): (r: Result<Keywords, Error>)
    ensures r.Success? ==> WellNamed(r.value, Declared(kind))
  {
    match kind
    case Collection => CollectionKwargs(data)
    case Theme => ThemeKwargs(data)
    case Instructions => InstructionsKwargs(data)
    case Minifig => MinifigKwargs(data)
  }

  /** The attributes of the instance `create` returns, or what it raises. */
  function Created(kind: Kind, data: Value): (r: Result<Dict, Error>)
    ensures r.Success? ==> r.value.Keys == Declared(kind)
  {
    var kwargs :- Kwargs(kind, data);
    ApplyAttrs(Defaults(kind), kwargs)
  }

  /** `Collection.create`: the arguments in source order, so the first missing key is the one reported. */
  function CollectionKwargs(data: Value): (r: Result<Keywords, Error>)
    ensures r.Success? <==> data.JObject? && CollectionKeys <= data.fields.Keys && data.fields["image"].JObject?
    ensures r.Success? ==> WellNamed(r.value, Declared(Collection))
    ensures !data.JObject? ==> r == Failure(TypeError)
  {
    var setId :- Index(data, "setID");
    var number :- Index(data, "number");
    var variant :- Index(data, "numberVariant");
    var name :- Index(data, "name");
    var year :- Index(data, "year");
    var category :- Index(data, "category");
    var group :- Index(data, "themeGroup");
    var theme :- Index(data, "theme");
    var subtheme := Get(data, "subtheme", JNull).value;  // `data` is a dict by now
    var released :- Index(data, "released");
    var image :- Index(data, "image");
    var imageUrl :- Get(image, "imageURL", JNull);
    Success([("set_id", setId), ("number", number), ("variant", variant), ("name", name),
             ("year", year), ("category", category), ("group", group), ("theme", theme),
             ("subtheme", subtheme), ("released", released), ("image_url", imageUrl)])
  }

  /** `Theme.create`: a sub-theme entry (one with a `subtheme` key) or a theme entry. */
  function ThemeKwargs(data: Value): (r: Result<Keywords, Error>)
    ensures r.Success? <==>
      && data.JObject? && "theme" in data.fields && ToIntAt(data, "setCount").Success?
      && ToIntAt(data, "yearFrom").Success? && ToIntAt(data, "yearTo").Success?
    ensures r.Success? ==> WellNamed(r.value, Declared(Theme))
    ensures !data.JObject? ==> r == Failure(TypeError)
  {
    if !data.JObject? then Failure(TypeError)
    else if "subtheme" in data.fields then
      var parent :- Index(data, "theme");
      var name := data.fields["subtheme"];
      var sets :- ToIntAt(data, "setCount");
      var yearFrom :- ToIntAt(data, "yearFrom");
      var yearTo :- ToIntAt(data, "yearTo");
      Success([("parent", parent), ("name", name), ("sets", JInt(sets)),
               ("year_from", JInt(yearFrom)), ("year_to", JInt(yearTo))])
    else
      var name :- Index(data, "theme");
      var subthemes := Get(data, "subthemeCount", JNull).value;
      var sets :- ToIntAt(data, "setCount");
      var yearFrom :- ToIntAt(data, "yearFrom");
      var yearTo :- ToIntAt(data, "yearTo");
      Success([("name", name), ("subthemes", subthemes), ("sets", JInt(sets)),
               ("year_from", JInt(yearFrom)), ("year_to", JInt(yearTo))])
  }

  /** `int(data[key])`. */
  function ToIntAt(data: Value, key: string): (r: Result<int, Error>)
    ensures r.Success? ==> data.JObject? && key in data.fields
    ensures data.JObject? && key in data.fields ==> r == ToInt(data.fields[key])
    ensures data.JObject? && key !in data.fields ==> r == Failure(KeyError(JStr(key)))
  {
    var v :- Index(data, key);
    ToInt(v)
  }

  /** `Instructions.create`: the description is read first, then parsed, then the URL read. */
  function InstructionsKwargs(data: Value): (r: Result<Keywords, Error>)
    ensures r.Success? <==>
      && data.JObject? && "URL" in data.fields
      && ("description" in data.fields ==> Describe(data.fields["description"]).Success?)
    ensures r.Success? ==> WellNamed(r.value, Declared(Instructions))
    ensures !data.JObject? ==> r == Failure(AttributeError("get"))
    ensures data.JObject? && "description" in data.fields && Describe(data.fields["description"]).Failure? ==>
      r == Failure(TypeError)
  {
    var descr :- Get(data, "description", JNull);
    var derived :- Describe(descr);
    var url :- Index(data, "URL");
    Success([("description", descr), ("url", url), ("version", derived.version),
             ("part", derived.part), ("parts", derived.parts)])
  }

  /** The keys `Minifig.create` reads. */
  const MinifigKeys: set<string> :=
    {"minifigNumber", "name", "category", "ownedInSets", "ownedLoose", "ownedTotal", "wanted"}

  /** `Minifig.create`. */
  function MinifigKwargs(data: Value): (r: Result<Keywords, Error>)
    ensures r.Success? <==> data.JObject? && MinifigKeys <= data.fields.Keys
    ensures r.Success? ==> WellNamed(r.value, Declared(Minifig))
    ensures !data.JObject? ==> r == Failure(TypeError)
  {
    var id :- Index(data, "minifigNumber");
    var name :- Index(data, "name");
    var category :- Index(data, "category");
    var inSets :- Index(data, "ownedInSets");
    var loose :- Index(data, "ownedLoose");
    var total :- Index(data, "ownedTotal");
    var wanted :- Index(data, "wanted");
    Success([("minifig_id", id), ("name", name), ("category", category), ("owned_in_sets", inSets),
             ("owned_loose", loose), ("owned_total", total), ("wanted", wanted)])
  }

  /*** The instructions description ***/

  /** What `Instructions.create` derives from a description. */
  datatype Derived = Derived(version: Value, part: Value, parts: Value)

  /** The version tag of a description: "V" and two digits, "IN", "NA" or None. */
  function VersionTag(s: string): (r: Value)
    ensures r.JNull? || r.JStr?
    ensures r.JStr? ==> (|r.s| == 3 && r.s[0] == 'V' && AllDigits(r.s[1..])) || r.s == "IN" || r.s == "NA"
  {
    match VersionSearch(s)
    case Some(digits) =>
      assert ("V" + digits)[1..] == digits;
      JStr("V" + digits)
    case None =>
      if |s| >= 3 && (s[|s| - 3..] == " IN" || s[|s| - 3..] == " NA") then
        assert s[|s| - 2..] == s[|s| - 3..][1..];
        JStr(s[|s| - 2..])
      else JNull
  }

  /** The part index and part count of a description (`int()` of each digit group): both
      numbers in 0..99, or both None. */
  function PartNumbers(s: string): (r: (Value, Value))
    ensures r.0.JInt? <==> r.1.JInt?
    ensures r.0.JInt? ==> 0 <= r.0.i <= 99 && 0 <= r.1.i <= 99
    ensures !r.0.JInt? ==> r == (JNull, JNull)
  {
    match PartsSearch(s)
    case Some((index, count)) =>
      assert Pow10(2) == 100 && Pow10(1) == 10;
      (JInt(DigitsValue(index)), JInt(DigitsValue(count)))
    case None => (JNull, JNull)
  }

  /** The `if descr:` block of `Instructions.create`; searching a value other than a string raises. */
  function Describe(descr: Value): (r: Result<Derived, Error>)
    ensures r.Failure? <==> Truthy(descr) && !descr.JStr?
    ensures !Truthy(descr) ==> r == Success(Derived(JNull, JNull, JNull))
    ensures descr.JStr? && descr.s != [] ==>
      r == Success(Derived(VersionTag(descr.s), PartNumbers(descr.s).0, PartNumbers(descr.s).1))
  {
    if !Truthy(descr) then Success(Derived(JNull, JNull, JNull))
    else if !descr.JStr? then Failure(TypeError)
    else
      var (part, parts) := PartNumbers(descr.s);
      Success(Derived(VersionTag(descr.s), part, parts))
  }

  /** Whether the description contains a match of the version pattern. */
  ghost predicate HasVersionMatch(s: string) {
    exists p: nat, k: nat, skip: nat :: p <= |s| && VersionPath(s, p, k, skip)
  }

  /** Whether the description contains a match of the parts pattern. */
  ghost predicate HasPartsMatch(s: string) {
    exists p: nat, n1: nat, n2: nat :: p <= |s| && PartsPath(s, p, n1, n2)
  }

  /** With a version match the tag is "V" and the two digits of the leftmost match, three
      characters in all; without one it is the trailing "IN" or "NA" after a space, or None. */
  lemma VersionTagCases(s: string)
    ensures HasVersionMatch(s) ==>
      exists p: nat, k: nat, skip: nat :: p <= |s| && VersionPath(s, p, k, skip) &&
        (forall q: nat, k': nat, skip': nat :: q < p ==> !VersionPath(s, q, k', skip')) &&
        (forall k', skip' :: TriedBefore(k', skip', k, skip) ==> !VersionPath(s, p, k', skip')) &&
        VersionTag(s) == JStr("V" + PathGroup(s, p, k, skip))
    ensures HasVersionMatch(s) ==>
      VersionTag(s).JStr? && |VersionTag(s).s| == 3 && VersionTag(s).s[0] == 'V' && AllDigits(VersionTag(s).s[1..])
    ensures !HasVersionMatch(s) ==>
      VersionTag(s) == if |s| >= 3 && s[|s| - 3..] in {" IN", " NA"} then JStr(s[|s| - 2..]) else JNull
  {
    VersionSearchFindsLeftmost(s);
    if HasVersionMatch(s) {
      VersionTagMatched(s);
    } else {
      VersionTagUnmatched(s);
    }
  }

  /** `VersionTagCases` when the search finds a match. */
  lemma VersionTagMatched(s: string)
    requires VersionSearch(s).Some?
    requires HasVersionMatch(s)
    ensures
      exists p: nat, k: nat, skip: nat :: p <= |s| && VersionPath(s, p, k, skip) &&
        (forall q: nat, k': nat, skip': nat :: q < p ==> !VersionPath(s, q, k', skip')) &&
        (forall k', skip' :: TriedBefore(k', skip', k, skip) ==> !VersionPath(s, p, k', skip')) &&
        VersionTag(s) == JStr("V" + PathGroup(s, p, k, skip))
    ensures VersionTag(s).JStr? && |VersionTag(s).s| == 3 && VersionTag(s).s[0] == 'V' && AllDigits(VersionTag(s).s[1..])
  {
    VersionSearchFindsLeftmost(s);
  }

  /** `VersionTagCases` when the search finds none. */
  lemma VersionTagUnmatched(s: string)
    requires VersionSearch(s).None?
    ensures VersionTag(s) == if |s| >= 3 && s[|s| - 3..] in {" IN", " NA"} then JStr(s[|s| - 2..]) else JNull
  {
  }

  /** The part index and count are set together or not at all: both come from the
      leftmost parts match, each in 0..99. */
  lemma PartNumbersCases(s: string)
    ensures PartNumbers(s).0.JInt? <==> HasPartsMatch(s)
    ensures PartNumbers(s).1.JInt? <==> HasPartsMatch(s)
    ensures !HasPartsMatch(s) ==> PartNumbers(s) == (JNull, JNull)
    ensures HasPartsMatch(s) ==>
      exists p: nat, n1: nat, n2: nat :: p <= |s| && PartsPath(s, p, n1, n2) &&
        (forall q: nat, m1: nat, m2: nat :: q < p ==> !PartsPath(s, q, m1, m2)) &&
        PartNumbers(s) == (JInt(DigitsValue(PartsGroups(s, p, n1, n2).0)), JInt(DigitsValue(PartsGroups(s, p, n1, n2).1)))
    ensures HasPartsMatch(s) ==> 0 <= PartNumbers(s).0.i <= 99 && 0 <= PartNumbers(s).1.i <= 99
  {
    PartsSearchFindsLeftmost(s);
    if HasPartsMatch(s) {
      var (index, count) := PartsSearch(s).value;
      assert Pow10(2) == 100 && Pow10(1) == 10;
      assert DigitsValue(index) < Pow10(|index|) <= 100;
      assert DigitsValue(count) < Pow10(|count|) <= 100;
    }
  }

  /*** What each create produces ***/

  /** The keys `Collection.create` reads with `data[key]`. */
  const CollectionKeys: set<string> :=
    {"setID", "number", "numberVariant", "name", "year", "category", "themeGroup", "theme", "released", "image"}

  /** `Collection.create` fails exactly when a required key is missing, or the data or its
      image is not a dict. */
  lemma CollectionCreateFails(data: Value)
    ensures Created(Collection, data).Success? <==>
      data.JObject? && CollectionKeys <= data.fields.Keys && data.fields["image"].JObject?
  {
    var kwargs := CollectionKwargs(data);
    if kwargs.Success? {
      ApplyAttrsFails(Defaults(Collection), kwargs.value);
    }
  }

  /** `Collection.create` copies eleven fields under fixed renames; `subtheme` defaults to
      None, and `image_url` is the image's `imageURL` or None. */
  lemma CollectionCreated(data: Value)
    requires Created(Collection, data).Success?
    ensures data.JObject? && data.fields["image"].JObject?
    ensures
      var d, f := Created(Collection, data).value, data.fields;
      && d["set_id"] == f["setID"] && d["number"] == f["number"] && d["variant"] == f["numberVariant"]
      && d["name"] == f["name"] && d["year"] == f["year"] && d["category"] == f["category"]
      && d["group"] == f["themeGroup"] && d["theme"] == f["theme"] && d["released"] == f["released"]
      && d["subtheme"] == (if "subtheme" in f then f["subtheme"] else JNull)
      && d["image_url"] == (var image := f["image"].fields; if "imageURL" in image then image["imageURL"] else JNull)
  {
    var kw := CollectionKwargs(data).value;
    ApplyAttrsWellNamed(Defaults(Collection), kw);
    var d := ApplyAttrs(Defaults(Collection), kw).value;
    assert d[kw[0].0] == kw[0].1 && d[kw[1].0] == kw[1].1 && d[kw[2].0] == kw[2].1 && d[kw[3].0] == kw[3].1;
    assert d[kw[4].0] == kw[4].1 && d[kw[5].0] == kw[5].1 && d[kw[6].0] == kw[6].1 && d[kw[7].0] == kw[7].1;
    assert d[kw[8].0] == kw[8].1 && d[kw[9].0] == kw[9].1 && d[kw[10].0] == kw[10].1;
  }

  /** `Theme.create` on a sub-theme entry names it after `subtheme` under parent `theme`
      and leaves `subthemes` None; on a theme entry it names it after `theme`, leaves
      `parent` None and takes `subthemes` from `subthemeCount` (or None). */
  lemma ThemeCreated(data: Value)
    ensures Created(Theme, data).Success? ==> data.JObject?
    ensures Created(Theme, data).Success? ==>
      var d, f := Created(Theme, data).value, data.fields;
      && d["sets"].JInt? && ToIntAt(data, "setCount") == Success(d["sets"].i)
      && d["year_from"].JInt? && ToIntAt(data, "yearFrom") == Success(d["year_from"].i)
      && d["year_to"].JInt? && ToIntAt(data, "yearTo") == Success(d["year_to"].i)
      && if "subtheme" in f then
          d["parent"] == f["theme"] && d["name"] == f["subtheme"] && d["subthemes"] == JNull
        else
          d["name"] == f["theme"] && d["parent"] == JNull &&
          d["subthemes"] == (if "subthemeCount" in f then f["subthemeCount"] else JNull)
  {
    var kwargs := ThemeKwargs(data);
    if kwargs.Success? {
      var kw := kwargs.value;
      ApplyAttrsWellNamed(Defaults(Theme), kw);
      var d := ApplyAttrs(Defaults(Theme), kw).value;
      ApplyAttrsKeeps(Defaults(Theme), kw, if "subtheme" in data.fields then "subthemes" else "parent");
      assert d[kw[0].0] == kw[0].1 && d[kw[1].0] == kw[1].1 && d[kw[2].0] == kw[2].1 && d[kw[3].0] == kw[3].1 && d[kw[4].0] == kw[4].1;
    }
  }

  /** `Instructions.create` stores the description and URL unchanged and the tag and part
      numbers derived from the description; a missing or empty description derives none. */
  lemma InstructionsCreated(data: Value)
    ensures Created(Instructions, data).Success? ==>
      var d, f := Created(Instructions, data).value, data.fields;
      && data.JObject? && "URL" in f && d["url"] == f["URL"]
      && d["description"] == (if "description" in f then f["description"] else JNull)
      && (!Truthy(d["description"]) ==> d["version"] == JNull && d["part"] == JNull && d["parts"] == JNull)
      && (Truthy(d["description"]) ==>
            d["description"].JStr? && d["version"] == VersionTag(d["description"].s) &&
            (d["part"], d["parts"]) == PartNumbers(d["description"].s))
  {
    var kwargs := InstructionsKwargs(data);
    if kwargs.Success? {
      var kw := kwargs.value;
      ApplyAttrsWellNamed(Defaults(Instructions), kw);
      var d := ApplyAttrs(Defaults(Instructions), kw).value;
      assert d[kw[0].0] == kw[0].1 && d[kw[1].0] == kw[1].1 && d[kw[2].0] == kw[2].1 && d[kw[3].0] == kw[3].1 && d[kw[4].0] == kw[4].1;
    }
  }

  /** `Minifig.create` maps exactly seven JSON fields onto the seven attributes. */
  lemma MinifigCreated(data: Value)
    ensures Created(Minifig, data).Success? <==> data.JObject? && MinifigKeys <= data.fields.Keys
    ensures Created(Minifig, data).Success? ==>
      var d, f := Created(Minifig, data).value, data.fields;
      && d["minifig_id"] == f["minifigNumber"] && d["name"] == f["name"] && d["category"] == f["category"]
      && d["owned_in_sets"] == f["ownedInSets"] && d["owned_loose"] == f["ownedLoose"]
      && d["owned_total"] == f["ownedTotal"] && d["wanted"] == f["wanted"]
  {
    var kwargs := MinifigKwargs(data);
    if kwargs.Success? {
      var kw := kwargs.value;
      ApplyAttrsWellNamed(Defaults(Minifig), kw);
      var d := ApplyAttrs(Defaults(Minifig), kw).value;
      assert d[kw[0].0] == kw[0].1 && d[kw[1].0] == kw[1].1 && d[kw[2].0] == kw[2].1 && d[kw[3].0] == kw[3].1 && d[kw[4].0] == kw[4].1 && d[kw[5].0] == kw[5].1 && d[kw[6].0] == kw[6].1;
    }
  }
}

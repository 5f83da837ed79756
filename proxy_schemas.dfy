/**
 * The rules inside src/proxy_schemas.rs: the URL every proxy-schema request goes
 * to, the validation that turns the manifest listing into `id`/`name` maps, the
 * display-key lookup by which the operator picks a manifest, and the loop that
 * builds the field map of a new proxy schema. The proxy-schema name prompt uses
 * the parser of `NameRules`. Responses and answers are inputs.
 */
module ProxySchemas {
  import opened Common
  import opened JsonValues
  import Urls
  import Manifests

  const ProxySchemaApi := "/proxy-schemas"

  // ---------------------------------------------------------------------------
  // URLs
  // ---------------------------------------------------------------------------

  /** The path `create_url` gives: `MANIFEST_API`, the id and `PROXY_SCHEMA_API`, joined by '/'. */
  function SchemasPath(manifestId: string): string {
    Manifests.ManifestApi + "/" + manifestId + "/" + ProxySchemaApi
  }

  /** The texts a proxy-schema path starts and ends with, around the manifest id. */
  const PathPrefix := "/api/v1/manifests/"
  const PathSuffix := "//proxy-schemas"

  /**
   * `create_url`: the configured URL with its path replaced. As written the path
   * holds a double slash, since `PROXY_SCHEMA_API` starts with one of its own.
   */
  function CreateUrl(base: Urls.Url, manifestId: string): (u: Urls.Url)
    ensures u.origin == base.origin && u.tail == base.tail
    ensures u.path == PathPrefix + manifestId + PathSuffix
  {
    Urls.SetPath(base, SchemasPath(manifestId))
  }

  /** Reads the manifest id back out of a proxy-schema path. */
  function ManifestIdOfPath(path: string): Option<string> {
    if |path| >= |PathPrefix| + |PathSuffix|
       && path[..|PathPrefix|] == PathPrefix
       && path[|path| - |PathSuffix|..] == PathSuffix
    then Some(path[|PathPrefix|..|path| - |PathSuffix|])
    else None
  }

  /**
   * The path names its manifest: reading the id back from the path of
   * `CreateUrl` gives the id the path was made for, whatever it holds, and every
   * path the reader accepts is the path of the id it reads.
   */
  lemma ManifestIdRoundTrip(base: Urls.Url, manifestId: string, path: string)
    ensures ManifestIdOfPath(CreateUrl(base, manifestId).path) == Some(manifestId)
    ensures ManifestIdOfPath(path).Some? ==> CreateUrl(base, ManifestIdOfPath(path).value).path == path
  {
    var p := CreateUrl(base, manifestId).path;
    assert p[..|PathPrefix|] == PathPrefix;
    assert p[|p| - |PathSuffix|..] == PathSuffix;
    assert p[|PathPrefix|..|p| - |PathSuffix|] == manifestId;
    if ManifestIdOfPath(path).Some? {
      var id := ManifestIdOfPath(path).value;
      assert path == path[..|PathPrefix|] + id + path[|path| - |PathSuffix|..];
    }
  }

  /** `get_by_id` and `delete`: the string form of the schemas URL, then '/' and the schema id. */
  function ItemUrl(base: Urls.Url, manifestId: string, id: string): (r: string)
    ensures |r| >= |base.origin| + |id| + 1
    ensures r[..|base.origin|] == base.origin && r[|r| - |id| - 1..] == "/" + id
  {
    Urls.Serialize(CreateUrl(base, manifestId)) + "/" + id
  }

  /**
   * For a configured URL without query or fragment, the item URL is the schemas
   * path followed by the schema id; otherwise the id lands after the query or
   * fragment, because the text is appended to the whole URL.
   */
  lemma ItemUrlShape(base: Urls.Url, manifestId: string, id: string)
    ensures ItemUrl(base, manifestId, id) == base.origin + PathPrefix + manifestId + PathSuffix + base.tail + "/" + id
    ensures base.tail == "" ==> ItemUrl(base, manifestId, id) == base.origin + SchemasPath(manifestId) + "/" + id
  {
  }

  // ---------------------------------------------------------------------------
  // The manifest listing
  // ---------------------------------------------------------------------------

  const CouldNotGetManifest := "could not get manifest"
  const NotAnObject := "Value is not an object"
  const IdMissing := "Key 'id' not found or is not a string"
  const NameMissing := "Key 'name' not found or is not a string"

  /** The `id`/`name` map that stands for one manifest. */
  type Entry = map<string, string>

  /**
   * One element of the listing: it must be an object with a string `id` and a
   * string `name`, checked in that order; the map holds exactly those two strings.
   */
  function ManifestEntry(m: Json): (r: Result<Entry>)
    ensures r.Ok? <==> m.JObject? && StringField(m.fields, "id").Some? && StringField(m.fields, "name").Some?
    ensures r.Ok? ==>
      && r.value.Keys == {"id", "name"}
      && m.fields["id"] == JString(r.value["id"])
      && m.fields["name"] == JString(r.value["name"])
    ensures r.Err? && !m.JObject? ==> r.msg == NotAnObject
    ensures r.Err? && m.JObject? && StringField(m.fields, "id").None? ==> r.msg == IdMissing
    ensures r.Err? && m.JObject? && StringField(m.fields, "id").Some? ==> r.msg == NameMissing
  {
    if !m.JObject? then Err(NotAnObject)
    else
      match StringField(m.fields, "id")
      case None => Err(IdMissing)
      case Some(id) =>
        match StringField(m.fields, "name")
        case None => Err(NameMissing)
        case Some(name) => Ok(map["id" := id, "name" := name])
  }

  predicate BadEntry(m: Json) {
    ManifestEntry(m).Err?
  }

  /**
   * `get_list_manifests` on the response of the manifest listing: its error is
   * passed on, a response that is not an array is refused, and otherwise the
   * elements are checked in order and the first bad one decides the error.
   */
  function ListManifests(response: Result<Json>): (r: Result<seq<Entry>>)
    ensures response.Err? ==> r == Err(response.msg)
    ensures response.Ok? && !response.value.JArray? ==> r == Err(CouldNotGetManifest)
    ensures r.Ok? ==>
      && response.Ok? && response.value.JArray?
      && |r.value| == |response.value.elements|
      && forall i :: 0 <= i < |r.value| ==> ManifestEntry(response.value.elements[i]) == Ok(r.value[i])
    ensures response.Ok? && response.value.JArray? && r.Err? ==>
      exists i :: 0 <= i < |response.value.elements|
        && ManifestEntry(response.value.elements[i]) == Err(r.msg)
        && forall j :: 0 <= j < i ==> ManifestEntry(response.value.elements[j]).Ok?
  {
    match response
    case Err(e) => Err(e)
    case Ok(value) =>
      if !value.JArray? then Err(CouldNotGetManifest)
      else
        var elements := value.elements;
        match FirstWhere(elements, BadEntry)
        case Some(i) => Err(ManifestEntry(elements[i]).msg)
        case None => Ok(seq(|elements|, i requires 0 <= i < |elements| => ManifestEntry(elements[i]).value))
  }

  /** Every map of a successful listing holds exactly an `id` and a `name`. */
  lemma ListedEntriesHaveIdAndName(response: Result<Json>)
    requires ListManifests(response).Ok?
    ensures forall e :: e in ListManifests(response).value ==> e.Keys == {"id", "name"}
  {
    var list := ListManifests(response).value;
    forall e | e in list
      ensures e.Keys == {"id", "name"}
    {
      var i :| 0 <= i < |list| && list[i] == e;
      assert ManifestEntry(response.value.elements[i]) == Ok(list[i]);
    }
  }

  /** The listing method: walks the elements, stopping at the first bad one. */
  method GetListManifests(response: Result<Json>) returns (r: Result<seq<Entry>>)
    ensures r == ListManifests(response)
  {
    if response.Err? {
      return Err(response.msg);
    }
    if !response.value.JArray? {
      return Err(CouldNotGetManifest);
    }
    var elements := response.value.elements;
    var list: seq<Entry> := [];
    var i := 0;
    while i < |elements|
      invariant 0 <= i <= |elements|
      invariant |list| == i
      invariant forall j :: 0 <= j < i ==> ManifestEntry(elements[j]) == Ok(list[j])
    {
      var entry := ManifestEntry(elements[i]);
      if entry.Err? {
        FirstWhereFinds(elements, BadEntry, i);
        return Err(entry.msg);
      }
      list := list + [entry.value];
      i := i + 1;
    }
    FirstWhereMisses(elements, BadEntry);
    assert seq(|elements|, j requires 0 <= j < |elements| => ManifestEntry(elements[j]).value) == list;
    r := Ok(list);
  }

  // ---------------------------------------------------------------------------
  // Choosing a manifest
  // ---------------------------------------------------------------------------

  const CouldNotFindManifest := "Could not find manifest"

  predicate HasIdAndName(e: Entry) {
    "id" in e && "name" in e
  }

  predicate AllHaveIdAndName(list: seq<Entry>) {
    forall i :: 0 <= i < |list| ==> HasIdAndName(list[i])
  }

  /** The option shown for a manifest: `"<name> (<id>)"`. */
  function DisplayKey(e: Entry): string
    requires HasIdAndName(e)
  {
    e["name"] + " (" + e["id"] + ")"
  }

  /** The options of the manifest menu, in listing order. */
  function DisplayKeys(list: seq<Entry>): (keys: seq<string>)
    requires AllHaveIdAndName(list)
  {
    seq(|list|, i requires 0 <= i < |list| => DisplayKey(list[i]))
  }

  /** What `select_manifest` inserts into its `keys` map, in order: each option with its id. */
  function KeyPairs(list: seq<Entry>): (pairs: seq<(string, string)>)
    requires AllHaveIdAndName(list)
    ensures |pairs| == |list|
  {
    seq(|list|, i requires 0 <= i < |list| => (DisplayKey(list[i]), list[i]["id"]))
  }

  lemma KeyPairsGrow(list: seq<Entry>, i: nat)
    requires AllHaveIdAndName(list) && i < |list|
    ensures KeyPairs(list[..i + 1]) == KeyPairs(list[..i]) + [(DisplayKey(list[i]), list[i]["id"])]
  {
    assert list[..i + 1][i] == list[i];
  }

  /**
   * `select_manifest` after the listing: the chosen option is looked up in the
   * map from option to id. The listing's and the prompt's errors are passed on.
   */
  function SelectFrom(listing: Result<seq<Entry>>, choice: Result<string>): (r: Result<string>)
    requires listing.Ok? ==> AllHaveIdAndName(listing.value)
    ensures listing.Err? ==> r == Err(listing.msg)
    ensures listing.Ok? && choice.Err? ==> r == Err(choice.msg)
    ensures listing.Ok? && choice.Ok? && r.Ok? ==>
      exists i :: 0 <= i < |listing.value| && DisplayKey(listing.value[i]) == choice.value && listing.value[i]["id"] == r.value
    ensures listing.Ok? && choice.Ok? && r.Err? ==>
      r.msg == CouldNotFindManifest && forall i :: 0 <= i < |listing.value| ==> DisplayKey(listing.value[i]) != choice.value
  {
    match listing
    case Err(e) => Err(e)
    case Ok(list) =>
      match choice
      case Err(e) => Err(e)
      case Ok(key) =>
        var keys := InsertAll(KeyPairs(list));
        InsertAllHasKeys(KeyPairs(list));
        InsertAllFromPairs(KeyPairs(list));
        assert forall i :: 0 <= i < |list| ==> KeyPairs(list)[i] == (DisplayKey(list[i]), list[i]["id"]);
        if key in keys then Ok(keys[key]) else Err(CouldNotFindManifest)
  }

  /**
   * `select_manifest`: the manifest listing, the key map built from it in listing
   * order, and the lookup of the operator's choice.
   */
  method SelectManifest(response: Result<Json>, choice: Result<string>) returns (r: Result<string>)
    ensures ListManifests(response).Ok? ==> AllHaveIdAndName(ListManifests(response).value)
    ensures r == SelectFrom(ListManifests(response), choice)
  {
    var listing := GetListManifests(response);
    if listing.Err? {
      return Err(listing.msg);
    }
    var manifests := listing.value;
    ListedEntriesHaveIdAndName(response);
    var keys: map<string, string> := map[];
    var i := 0;
    while i < |manifests|
      invariant 0 <= i <= |manifests|
      invariant keys == InsertAll(KeyPairs(manifests[..i]))
    {
      KeyPairsGrow(manifests, i);
      InsertAllGrows(KeyPairs(manifests[..i]), (DisplayKey(manifests[i]), manifests[i]["id"]));
      keys := keys[DisplayKey(manifests[i]) := manifests[i]["id"]];
      i := i + 1;
    }
    assert manifests[..i] == manifests;
    if choice.Err? {
      return Err(choice.msg);
    }
    if choice.value in keys {
      r := Ok(keys[choice.value]);
    } else {
      r := Err(CouldNotFindManifest);
    }
  }

  /**
   * Choosing the option of the manifest at index `i` gives that manifest's id,
   * provided no later manifest shows the same option (a later insertion would
   * overwrite it).
   */
  lemma ChosenOptionGivesItsId(list: seq<Entry>, i: nat)
    requires AllHaveIdAndName(list) && i < |list|
    requires forall j :: i < j < |list| ==> DisplayKey(list[j]) != DisplayKey(list[i])
    ensures SelectFrom(Ok(list), Ok(DisplayKeys(list)[i])) == Ok(list[i]["id"])
  {
    var pairs := KeyPairs(list);
    InsertAllLastWins(pairs, i);
  }

  /** When the options are pairwise different, every option of the menu maps back to its own manifest's id. */
  lemma DistinctOptionsSelectTheirManifest(list: seq<Entry>)
    requires AllHaveIdAndName(list)
    requires forall i, j :: 0 <= i < j < |list| ==> DisplayKey(list[i]) != DisplayKey(list[j])
    ensures forall i :: 0 <= i < |list| ==> SelectFrom(Ok(list), Ok(DisplayKeys(list)[i])) == Ok(list[i]["id"])
  {
    forall i | 0 <= i < |list|
      ensures SelectFrom(Ok(list), Ok(DisplayKeys(list)[i])) == Ok(list[i]["id"])
    {
      ChosenOptionGivesItsId(list, i);
    }
  }

  // ---------------------------------------------------------------------------
  // The field map
  // ---------------------------------------------------------------------------

  /** The labels the field-label menu offers. */
  datatype FieldLabel = Pii | Secret

  function LabelName(l: FieldLabel): string {
    match l
    case Pii => "pii"
    case Secret => "secret"
  }

  /** One round of `prompt_for_fields`: a field name, its label, and whether to add another. */
  datatype FieldAnswer = FieldAnswer(name: string, fieldLabel: FieldLabel, addAnother: bool)

  /** The round whose "add another field?" was answered no ends the loop. */
  predicate Stops(a: FieldAnswer) {
    !a.addAnother
  }

  /** What the rounds insert into the field map, in order. */
  function FieldPairs(answers: seq<FieldAnswer>): (pairs: seq<(string, string)>)
    ensures |pairs| == |answers|
  {
    seq(|answers|, i requires 0 <= i < |answers| => (answers[i].name, LabelName(answers[i].fieldLabel)))
  }

  /** One more round inserts its field into the map of the rounds before it. */
  lemma FieldsGrow(answers: seq<FieldAnswer>, i: nat)
    requires i < |answers|
    ensures InsertAll(FieldPairs(answers[..i + 1]))
         == InsertAll(FieldPairs(answers[..i]))[answers[i].name := LabelName(answers[i].fieldLabel)]
  {
    assert answers[..i + 1][i] == answers[i];
    assert FieldPairs(answers[..i + 1]) == FieldPairs(answers[..i]) + [(answers[i].name, LabelName(answers[i].fieldLabel))];
    InsertAllGrows(FieldPairs(answers[..i]), (answers[i].name, LabelName(answers[i].fieldLabel)));
  }

  /**
   * The field map of a run of rounds: the loop ends after the first round
   * answered "no more", having inserted the fields of every round up to it.
   * `None` when no round says so, that is, when the answers run out first.
   */
  function FieldsEntered(answers: seq<FieldAnswer>): (r: Option<map<string, string>>)
    ensures r.Some? <==> exists i :: 0 <= i < |answers| && Stops(answers[i])
  {
    match FirstWhere(answers, Stops)
    case None => None
    case Some(i) => Some(InsertAll(FieldPairs(answers[..i + 1])))
  }

  /**
   * One more round inserts its field into the map of the rounds before it, and
   * when that round is the first one answered "no more", the map is finished.
   */
  lemma FieldsStep(answers: seq<FieldAnswer>, i: nat, fields: map<string, string>)
    requires i < |answers|
    requires fields == InsertAll(FieldPairs(answers[..i]))
    requires forall j :: 0 <= j < i ==> !Stops(answers[j])
    ensures fields[answers[i].name := LabelName(answers[i].fieldLabel)] == InsertAll(FieldPairs(answers[..i + 1]))
    ensures Stops(answers[i]) ==> FieldsEntered(answers) == Some(fields[answers[i].name := LabelName(answers[i].fieldLabel)])
  {
    FieldsGrow(answers, i);
    if Stops(answers[i]) {
      FirstWhereFinds(answers, Stops, i);
    }
  }

  /** `prompt_for_fields`: the loop that asks for rounds and inserts each field. */
  method PromptForFields(answers: seq<FieldAnswer>) returns (r: Option<map<string, string>>)
    ensures r == FieldsEntered(answers)
  {
    var fields: map<string, string> := map[];
    var i := 0;
    while i < |answers|
      invariant 0 <= i <= |answers|
      invariant forall j :: 0 <= j < i ==> !Stops(answers[j])
      invariant fields == InsertAll(FieldPairs(answers[..i]))
    {
      var a := answers[i];
      FieldsStep(answers, i, fields);
      fields := fields[a.name := LabelName(a.fieldLabel)];
      if !a.addAnother {
        return Some(fields);
      }
      i := i + 1;
    }
    FirstWhereMisses(answers, Stops);
    r := None;
  }

  /**
   * A finished field map is never empty (the loop body runs at least once): it
   * holds the field of the last round, and every label in it is "pii" or "secret".
   */
  lemma FieldsEnteredShape(answers: seq<FieldAnswer>)
    requires FieldsEntered(answers).Some?
    ensures var stop := FirstWhere(answers, Stops).value;
      answers[stop].name in FieldsEntered(answers).value
    ensures forall k :: k in FieldsEntered(answers).value ==> FieldsEntered(answers).value[k] in {"pii", "secret"}
  {
    var stop := FirstWhere(answers, Stops).value;
    var prefix := answers[..stop + 1];
    assert prefix[stop] == answers[stop];
    assert FieldPairs(prefix)[stop].0 == answers[stop].name;
    InsertAllHasKeys(FieldPairs(prefix));
    LabelsArePiiOrSecret(prefix);
  }

  /** Every value of a field map is one of the two labels. */
  lemma LabelsArePiiOrSecret(answers: seq<FieldAnswer>)
    ensures forall k :: k in InsertAll(FieldPairs(answers)) ==> InsertAll(FieldPairs(answers))[k] in {"pii", "secret"}
  {
    var m := InsertAll(FieldPairs(answers));
    InsertAllFromPairs(FieldPairs(answers));
    forall k | k in m
      ensures m[k] in {"pii", "secret"}
    {
      var i :| 0 <= i < |answers| && FieldPairs(answers)[i].0 == k && FieldPairs(answers)[i].1 == m[k];
    }
  }

  /** A field named again in a later round takes the later round's label. */
  lemma LaterFieldOverwrites(answers: seq<FieldAnswer>, i: nat)
    requires i < |answers|
    requires forall j :: i < j < |answers| ==> answers[j].name != answers[i].name
    ensures answers[i].name in InsertAll(FieldPairs(answers))
    ensures InsertAll(FieldPairs(answers))[answers[i].name] == LabelName(answers[i].fieldLabel)
  {
    InsertAllLastWins(FieldPairs(answers), i);
  }

  /** The fields of the map are exactly the names answered. */
  lemma FieldNamesAnswered(answers: seq<FieldAnswer>, name: string)
    ensures name in InsertAll(FieldPairs(answers)) <==> exists i :: 0 <= i < |answers| && answers[i].name == name
  {
    InsertAllHasKeys(FieldPairs(answers));
    InsertAllFromPairs(FieldPairs(answers));
    assert forall i :: 0 <= i < |answers| ==> FieldPairs(answers)[i].0 == answers[i].name;
    if name in InsertAll(FieldPairs(answers)) {
      var i :| 0 <= i < |answers| && FieldPairs(answers)[i].0 == name;
    }
  }
}

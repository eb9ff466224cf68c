/** The Cargo.toml editor (gui-edit/src/components/manifest/CargoTomlEditor.tsx):
    the `[package]` fields, the `[dependencies]` table with its two forms of
    entry, the comma-separated features text, and the load, save and dirty
    state around them. Reading and writing the file are outcomes given to
    the model. */
module CargoTomlEditorModel {
  import opened Wrappers
  import opened Strings
  import opened ManifestForms

  /** A `[dependencies]` entry as stored: `name = "1.0"` or
      `name = { version = "1.0", features = [...] }` (where `features` may be
      missing). */
  datatype RawDependency =
    | Plain(version: string)
    | Table(version: string, features: Option<seq<string>>)

  /** `DependencyValue`: what a row shows. */
  datatype Dependency = Dependency(version: string, features: Option<seq<string>>)

  /** `parseDependency`: a plain version has no features; a table is taken as
      it is. */
  function ParseDependency(value: RawDependency): (r: Dependency)
    ensures r.version == value.version
    ensures value.Plain? ==> r.features == None
    ensures value.Table? ==> r.features == value.features
  {
    match value
    case Plain(v) => Dependency(v, None)
    case Table(v, fs) => Dependency(v, fs)
  }

  /** `parsed.features || []`. */
  function FeatureList(d: Dependency): seq<string> {
    if d.features.Some? then d.features.value else []
  }

  /** The entry `updateDependency` stores: a table when there are features,
      a plain version otherwise. */
  function Stored(version: string, features: Option<seq<string>>): (r: RawDependency)
    ensures r.Table? <==> features.Some? && |features.value| > 0
  {
    if features.Some? && |features.value| > 0 then Table(version, features) else Plain(version)
  }

  /** Reading back a stored entry gives its version and its features. */
  lemma ParseStored(version: string, features: Option<seq<string>>)
    ensures var d := ParseDependency(Stored(version, features));
      d.version == version && FeatureList(d) == (if features.Some? then features.value else [])
  {
  }

  /** An entry that is already in the form `updateDependency` writes is
      stored again unchanged when its own version and features are written. */
  lemma StoredOfParsed(value: RawDependency)
    requires value.Table? ==> value.features.Some? && |value.features.value| > 0
    ensures var d := ParseDependency(value); Stored(d.version, d.features) == value
  {
  }

  /** What the version field of a row stores (`onVersionChange`). */
  function VersionEdit(value: RawDependency, version: string): RawDependency {
    Stored(version, ParseDependency(value).features)
  }

  /** What the features field of a row stores (`onFeaturesChange`). */
  function FeaturesEdit(value: RawDependency, features: seq<string>): RawDependency {
    Stored(ParseDependency(value).version, Some(features))
  }

  /** A version edit keeps the features, and a features edit keeps the
      version. */
  lemma EditsKeepEachOther(value: RawDependency, version: string, features: seq<string>)
    ensures var d := ParseDependency(VersionEdit(value, version));
      d.version == version && FeatureList(d) == FeatureList(ParseDependency(value))
    ensures var d := ParseDependency(FeaturesEdit(value, features));
      d.version == value.version && FeatureList(d) == features
  {
    ParseStored(version, ParseDependency(value).features);
    ParseStored(value.version, Some(features));
  }

  /** `.map((f) => f.trim())`. */
  function TrimAll(parts: seq<string>): seq<string> {
    seq(|parts|, i requires 0 <= i < |parts| => Trim(parts[i]))
  }

  /** The features text of a row: split on commas, each part trimmed, empty
      parts dropped. */
  function ParseFeatures(text: string): seq<string> {
    NonEmpty(TrimAll(Split(text, ',')))
  }

  /** A feature as the text can give it: not empty, no comma, no whitespace
      around it. */
  predicate Feature(f: string) {
    Clean(f) && ',' !in f
  }

  /** Every feature read from the text is one. */
  lemma ParseFeaturesClean(text: string)
    ensures forall i :: 0 <= i < |ParseFeatures(text)| ==> Feature(ParseFeatures(text)[i])
  {
    var parts := Split(text, ',');
    var trimmed := TrimAll(parts);
    SplitParts(text, ',');
    forall i | 0 <= i < |trimmed| ensures ',' !in trimmed[i] && (trimmed[i] == [] || Clean(trimmed[i])) {
      TrimClean(parts[i]);
      var t := TrimStart(parts[i]);
      assert trimmed[i] == TrimEnd(t);
      assert forall c :: c in trimmed[i] ==> c in parts[i];
    }
    NonEmptyMembers(trimmed);
  }

  /** `" " + x` for every part. */
  function Spaced(parts: seq<string>): seq<string> {
    seq(|parts|, i requires 0 <= i < |parts| => " " + parts[i])
  }

  /** Joining on ", " is joining on "," after a blank in front of each part
      but the first. */
  lemma {:induction false} SpacedJoin(parts: seq<string>)
    requires |parts| >= 1
    ensures " " + Join(parts, ", ") == Join(Spaced(parts), ",")
  {
    if |parts| > 1 {
      SpacedJoin(parts[1..]);
      assert Spaced(parts)[1..] == Spaced(parts[1..]);
      var rest := Join(parts[1..], ", ");
      assert " " + (parts[0] + ", " + rest) == (" " + parts[0]) + "," + (" " + rest);
    }
  }

  /** The features joined on ", " are the first one and the others behind a
      blank, joined on ",". */
  lemma JoinAsParts(features: seq<string>)
    requires |features| >= 1
    ensures Join(features, ", ") == Join([features[0]] + Spaced(features[1..]), ",")
  {
    var parts := [features[0]] + Spaced(features[1..]);
    if |features| > 1 {
      var rest := Join(features[1..], ", ");
      JoinUnfold(features, ", ");
      JoinUnfold(parts, ",");
      assert parts[1..] == Spaced(features[1..]);
      SpacedJoin(features[1..]);
      CommaBlank(features[0], rest);
    }
  }

  lemma JoinUnfold(parts: seq<string>, sep: string)
    requires |parts| > 1
    ensures Join(parts, sep) == parts[0] + sep + Join(parts[1..], sep)
  {
  }

  lemma CommaBlank(a: string, rest: string)
    ensures a + ", " + rest == a + "," + (" " + rest)
  {
    assert ", " == "," + " ";
  }

  lemma TrimSpaced(f: string)
    requires Feature(f)
    ensures Trim(" " + f) == f
  {
    assert (" " + f)[1..] == f;
    TrimUnchanged(f);
  }

  /** The parts the shown text splits into: the first feature, then the
      others behind the blank of their ", ". */
  function ShownParts(features: seq<string>): seq<string>
    requires |features| >= 1
  {
    [features[0]] + Spaced(features[1..])
  }

  lemma ShownPartAt(features: seq<string>, i: int)
    requires 0 <= i < |features|
    requires Feature(features[i])
    ensures i < |ShownParts(features)|
    ensures ',' !in ShownParts(features)[i] && Trim(ShownParts(features)[i]) == features[i]
  {
    var parts := ShownParts(features);
    if i > 0 {
      assert parts[i] == " " + features[i];
      TrimSpaced(features[i]);
    } else {
      TrimUnchanged(features[0]);
    }
  }

  lemma ShownPartsFacts(features: seq<string>)
    requires |features| >= 1
    requires forall i :: 0 <= i < |features| ==> Feature(features[i])
    ensures |ShownParts(features)| == |features|
    ensures forall i :: 0 <= i < |features| ==> ',' !in ShownParts(features)[i]
    ensures TrimAll(ShownParts(features)) == features
  {
    var parts := ShownParts(features);
    forall i | 0 <= i < |parts| ensures ',' !in parts[i] && Trim(parts[i]) == features[i] {
      ShownPartAt(features, i);
    }
  }

  /** The text a row shows for its features reads back as those features:
      `ParseFeatures(features.join(", ")) == features`. */
  lemma FeaturesRoundTrip(features: seq<string>)
    requires forall i :: 0 <= i < |features| ==> Feature(features[i])
    ensures ParseFeatures(Join(features, ", ")) == features
  {
    if features == [] {
      assert TrimAll([""]) == [""];
    } else {
      var parts := ShownParts(features);
      JoinAsParts(features);
      ShownPartsFacts(features);
      SplitJoin(parts, ',');
      NonEmptyAll(features);
    }
  }

  datatype PackageField = Name | Version | Edition

  /** `[package]`: its name, version and optional edition. */
  datatype Package = Package(name: string, version: string, edition: Option<string>)

  /** `{ ...package, [field]: value }`. */
  function SetField(p: Package, field: PackageField, value: string): (r: Package)
    ensures field == Name ==> r == p.(name := value)
    ensures field == Version ==> r == p.(version := value)
    ensures field == Edition ==> r == p.(edition := Some(value))
  {
    match field
    case Name => p.(name := value)
    case Version => p.(version := value)
    case Edition => p.(edition := Some(value))
  }

  /** The edition the selector shows: the file's, or 2021 when it has none
      (or an empty one). */
  function ShownEdition(p: Package): (r: string)
    ensures p.edition.Some? && p.edition.value != "" ==> r == p.edition.value
    ensures p.edition.None? || p.edition.value == "" ==> r == "2021"
  {
    if p.edition.Some? && p.edition.value != "" then p.edition.value else "2021"
  }

  /** Once an edition is chosen it is the one shown. */
  lemma ShownEditionSet(p: Package, edition: string)
    requires edition != ""
    ensures ShownEdition(SetField(p, Edition, edition)) == edition
  {
  }

  datatype CargoToml = CargoToml(package: Package, dependencies: Option<map<string, RawDependency>>)

  function Dependencies(c: CargoToml): map<string, RawDependency> {
    OrEmpty(c.dependencies)
  }

  /** The manifest after `updateDependency(name, version, features)`: that
      entry is the stored form of the version and features, every other
      entry and the package are as they were. */
  function WithDependency(c: CargoToml, name: string, version: string, features: Option<seq<string>>): (r: CargoToml)
    ensures r.package == c.package && r.dependencies.Some?
    ensures Dependencies(r).Keys == Dependencies(c).Keys + {name}
    ensures Dependencies(r)[name] == Stored(version, features)
    ensures forall k :: k in Dependencies(c) && k != name ==> Dependencies(r)[k] == Dependencies(c)[k]
  {
    c.(dependencies := Some(Dependencies(c)[name := Stored(version, features)]))
  }

  /** The manifest after `removeDependency(name)`: exactly that entry is
      gone. */
  function WithoutDependency(c: CargoToml, name: string): (r: CargoToml)
    ensures r.package == c.package && r.dependencies.Some?
    ensures Dependencies(r).Keys == Dependencies(c).Keys - {name}
    ensures forall k :: k in Dependencies(r) ==> Dependencies(r)[k] == Dependencies(c)[k]
  {
    c.(dependencies := Some(Dependencies(c) - {name}))
  }

  /** Adding a crate that was not there and removing it again gives back the
      same dependencies. */
  lemma AddThenRemove(c: CargoToml, name: string, version: string, features: Option<seq<string>>)
    requires name !in Dependencies(c)
    ensures Dependencies(WithoutDependency(WithDependency(c, name, version, features), name)) == Dependencies(c)
  {
    var r := Dependencies(WithoutDependency(WithDependency(c, name, version, features), name));
    assert r.Keys == Dependencies(c).Keys;
  }

  /** Writing the same entry twice is writing it once. */
  lemma WithDependencyTwice(c: CargoToml, name: string, version: string, features: Option<seq<string>>)
    ensures var once := WithDependency(c, name, version, features);
      WithDependency(once, name, version, features) == once
  {
    var once := WithDependency(c, name, version, features);
    assert Dependencies(WithDependency(once, name, version, features)) == Dependencies(once);
  }

  /** The default version of the add form. */
  const NewCrateVersion := "1.0"

  class CargoTomlEditor {
    const path: string
    var cargoToml: Option<CargoToml>
    var loading: bool
    var saving: bool
    var error: Option<string>
    var isDirty: bool
    var showAddDep: bool

    /** The editor before its first load has finished. */
    constructor(path: string)
      ensures this.path == path && cargoToml == None && loading && !saving
      ensures error == None && !isDirty && !showAddDep
    {
      this.path := path;
      cargoToml, loading, saving, error, isDirty, showAddDep := None, true, false, None, false, false;
    }

    /** The save button is enabled when there are changes and no save is
        running. */
    predicate CanSave()
      reads this
    {
      isDirty && !saving
    }

    /** `loadCargoToml`: a read replaces the manifest and clears the dirty
        flag; a failed read keeps the old manifest and shows the error. */
    method Load(read: Result<CargoToml, Thrown>)
      modifies this
      ensures read.Ok? ==> cargoToml == Some(read.value) && !isDirty && error == None
      ensures read.Err? ==>
        cargoToml == old(cargoToml) && isDirty == old(isDirty) &&
        error == Some(ErrorText(read.error, "Failed to load Cargo.toml"))
      ensures !loading && saving == old(saving) && showAddDep == old(showAddDep)
    {
      loading, error := true, None;
      match read {
        case Ok(data) =>
          cargoToml, isDirty := Some(data), false;
        case Err(thrown) =>
          error := Some(ErrorText(thrown, "Failed to load Cargo.toml"));
      }
      loading := false;
    }

    /** `handleSave`: nothing without a manifest; otherwise the manifest is
        written to the editor's path, and a write that succeeds clears the
        dirty flag while one that fails shows the error. */
    method Save(write: Result<(), Thrown>) returns (written: Option<(string, CargoToml)>)
      modifies this
      ensures written.Some? <==> old(cargoToml).Some?
      ensures written.Some? ==> written.value == (path, old(cargoToml).value)
      ensures written.Some? && write.Ok? ==> !isDirty && error == old(error) && !CanSave()
      ensures written.Some? && write.Err? ==>
        isDirty == old(isDirty) && error == Some(ErrorText(write.error, "Failed to save Cargo.toml"))
      ensures written.None? ==> isDirty == old(isDirty) && error == old(error) && saving == old(saving)
      ensures written.Some? ==> !saving
      ensures cargoToml == old(cargoToml) && loading == old(loading) && showAddDep == old(showAddDep)
    {
      if cargoToml.None? {
        return None;
      }
      saving := true;
      written := Some((path, cargoToml.value));
      if write.Ok? {
        isDirty := false;
      } else {
        error := Some(ErrorText(write.error, "Failed to save Cargo.toml"));
      }
      saving := false;
    }

    /** `updatePackageField`: nothing without a manifest; otherwise that
        field changes and the manifest is dirty. */
    method UpdatePackageField(field: PackageField, value: string)
      modifies this
      ensures old(cargoToml).None? ==> cargoToml == None && isDirty == old(isDirty)
      ensures old(cargoToml).Some? ==>
        cargoToml == Some(old(cargoToml).value.(package := SetField(old(cargoToml).value.package, field, value))) &&
        isDirty
      ensures loading == old(loading) && saving == old(saving) && error == old(error) && showAddDep == old(showAddDep)
    {
      if cargoToml.None? {
        return;
      }
      var c := cargoToml.value;
      cargoToml := Some(c.(package := SetField(c.package, field, value)));
      isDirty := true;
    }

    /** `updateDependency`: nothing without a manifest; otherwise the entry
        is written and the manifest is dirty. */
    method UpdateDependency(name: string, version: string, features: Option<seq<string>>)
      modifies this
      ensures old(cargoToml).None? ==> cargoToml == None && isDirty == old(isDirty)
      ensures old(cargoToml).Some? ==>
        cargoToml == Some(WithDependency(old(cargoToml).value, name, version, features)) && isDirty
      ensures loading == old(loading) && saving == old(saving) && error == old(error) && showAddDep == old(showAddDep)
    {
      if cargoToml.None? {
        return;
      }
      var c := cargoToml.value;
      var deps := Dependencies(c);
      if features.Some? && |features.value| > 0 {
        deps := deps[name := Table(version, features)];
      } else {
        deps := deps[name := Plain(version)];
      }
      cargoToml := Some(c.(dependencies := Some(deps)));
      isDirty := true;
    }

    /** `removeDependency`: nothing without a manifest; otherwise the entry
        is deleted and the manifest is dirty. */
    method RemoveDependency(name: string)
      modifies this
      ensures old(cargoToml).None? ==> cargoToml == None && isDirty == old(isDirty)
      ensures old(cargoToml).Some? ==> cargoToml == Some(WithoutDependency(old(cargoToml).value, name)) && isDirty
      ensures loading == old(loading) && saving == old(saving) && error == old(error) && showAddDep == old(showAddDep)
    {
      if cargoToml.None? {
        return;
      }
      var c := cargoToml.value;
      var deps := Dependencies(c) - {name};
      cargoToml := Some(c.(dependencies := Some(deps)));
      isDirty := true;
    }

    /** The version field of the row for `name`, which shows `value`. */
    method ChangeVersion(name: string, value: RawDependency, version: string)
      modifies this
      ensures old(cargoToml).None? ==> cargoToml == None && isDirty == old(isDirty)
      ensures old(cargoToml).Some? ==>
        cargoToml == Some(WithDependency(old(cargoToml).value, name, version, ParseDependency(value).features)) &&
        Dependencies(cargoToml.value)[name] == VersionEdit(value, version)
      ensures loading == old(loading) && saving == old(saving) && error == old(error) && showAddDep == old(showAddDep)
    {
      var parsed := ParseDependency(value);
      UpdateDependency(name, version, parsed.features);
    }

    /** The features field of the row for `name`, which shows `value`. */
    method ChangeFeatures(name: string, value: RawDependency, text: string)
      modifies this
      ensures old(cargoToml).None? ==> cargoToml == None && isDirty == old(isDirty)
      ensures old(cargoToml).Some? ==>
        cargoToml == Some(WithDependency(old(cargoToml).value, name, value.version, Some(ParseFeatures(text)))) &&
        Dependencies(cargoToml.value)[name] == FeaturesEdit(value, ParseFeatures(text))
      ensures loading == old(loading) && saving == old(saving) && error == old(error) && showAddDep == old(showAddDep)
    {
      var parsed := ParseDependency(value);
      UpdateDependency(name, parsed.version, Some(ParseFeatures(text)));
    }

    method ShowAddForm()
      modifies this
      ensures showAddDep
      ensures cargoToml == old(cargoToml) && isDirty == old(isDirty)
      ensures loading == old(loading) && saving == old(saving) && error == old(error)
    {
      showAddDep := true;
    }

    method CancelAddForm()
      modifies this
      ensures !showAddDep
      ensures cargoToml == old(cargoToml) && isDirty == old(isDirty)
      ensures loading == old(loading) && saving == old(saving) && error == old(error)
    {
      showAddDep := false;
    }

    /** `addDependency`: the crate is added with its version and no features,
        and the form closes. */
    method AddDependency(name: string, version: string)
      modifies this
      ensures old(cargoToml).None? ==> cargoToml == None && isDirty == old(isDirty)
      ensures old(cargoToml).Some? ==>
        cargoToml == Some(WithDependency(old(cargoToml).value, name, version, None)) && isDirty
      ensures !showAddDep
      ensures loading == old(loading) && saving == old(saving) && error == old(error)
    {
      UpdateDependency(name, version, None);
      showAddDep := false;
    }

    /** The form's Add button: a blank name does nothing; otherwise the
        trimmed name is added with the form's version. */
    method SubmitAddForm(form: AddForm) returns (added: Option<(string, string)>)
      modifies this, form
      ensures added.Some? <==> Trim(old(form.name)) != ""
      ensures added.Some? ==>
        added.value == (Trim(old(form.name)), old(form.version)) &&
        !showAddDep && form.name == "" && form.version == form.initialVersion &&
        (old(cargoToml).None? ==> cargoToml == None) &&
        (old(cargoToml).Some? ==> cargoToml == Some(WithDependency(old(cargoToml).value, added.value.0, added.value.1, None)))
      ensures added.None? ==>
        cargoToml == old(cargoToml) && isDirty == old(isDirty) && showAddDep == old(showAddDep) &&
        form.name == old(form.name) && form.version == old(form.version)
      ensures loading == old(loading) && saving == old(saving) && error == old(error)
    {
      added := form.Submit();
      if added.Some? {
        AddDependency(added.value.0, added.value.1);
      }
    }
  }
}

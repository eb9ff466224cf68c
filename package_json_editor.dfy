/** The package.json editor (gui-edit/src/components/manifest/PackageJsonEditor.tsx):
    name and version, the `scripts`, `dependencies` and `devDependencies`
    records, the three add forms, and the load, save and dirty state.
    Reading and writing the file are outcomes given to the model. */
module PackageJsonEditorModel {
  import opened Wrappers
  import opened Strings
  import opened ManifestForms

  datatype PackageJson = PackageJson(
    name: string,
    version: string,
    scripts: Option<map<string, string>>,
    dependencies: Option<map<string, string>>,
    devDependencies: Option<map<string, string>>)

  /** One call of `updateField(field, value)`: the field and the value it
      gets, of the type the field has. */
  datatype FieldChange =
    | SetName(name: string)
    | SetVersion(version: string)
    | SetScripts(scripts: map<string, string>)
    | SetDependencies(dependencies: map<string, string>)
    | SetDevDependencies(devDependencies: map<string, string>)

  /** `{ ...packageJson, [field]: value }`. */
  function Apply(p: PackageJson, change: FieldChange): (r: PackageJson)
    ensures change.SetName? ==> r == p.(name := change.name)
    ensures change.SetVersion? ==> r == p.(version := change.version)
    ensures change.SetScripts? ==> r == p.(scripts := Some(change.scripts))
    ensures change.SetDependencies? ==> r == p.(dependencies := Some(change.dependencies))
    ensures change.SetDevDependencies? ==> r == p.(devDependencies := Some(change.devDependencies))
  {
    match change
    case SetName(n) => p.(name := n)
    case SetVersion(v) => p.(version := v)
    case SetScripts(m) => p.(scripts := Some(m))
    case SetDependencies(m) => p.(dependencies := Some(m))
    case SetDevDependencies(m) => p.(devDependencies := Some(m))
  }

  /** `packageJson[isDev ? "devDependencies" : "dependencies"]`, spread. */
  function Deps(p: PackageJson, isDev: bool): map<string, string> {
    if isDev then OrEmpty(p.devDependencies) else OrEmpty(p.dependencies)
  }

  function Scripts(p: PackageJson): map<string, string> {
    OrEmpty(p.scripts)
  }

  /** The change `updateDependency(isDev, name, version)` makes. */
  function DependencyChange(p: PackageJson, isDev: bool, name: string, version: string): FieldChange {
    var deps := Deps(p, isDev)[name := version];
    if isDev then SetDevDependencies(deps) else SetDependencies(deps)
  }

  /** The change `removeDependency(isDev, name)` makes. */
  function RemovalChange(p: PackageJson, isDev: bool, name: string): FieldChange {
    var deps := Deps(p, isDev) - {name};
    if isDev then SetDevDependencies(deps) else SetDependencies(deps)
  }

  /** Setting a dependency writes that one key of the record it targets;
      the other record, the scripts, the name and the version stay. */
  lemma DependencyChangeMeaning(p: PackageJson, isDev: bool, name: string, version: string)
    ensures var r := Apply(p, DependencyChange(p, isDev, name, version));
      Deps(r, isDev).Keys == Deps(p, isDev).Keys + {name} && Deps(r, isDev)[name] == version &&
      (forall k :: k in Deps(p, isDev) && k != name ==> Deps(r, isDev)[k] == Deps(p, isDev)[k]) &&
      (if isDev then r.dependencies == p.dependencies else r.devDependencies == p.devDependencies) &&
      r.scripts == p.scripts && r.name == p.name && r.version == p.version
  {
  }

  /** Removing a dependency deletes exactly that key of the record it
      targets; everything else stays. */
  lemma RemovalChangeMeaning(p: PackageJson, isDev: bool, name: string)
    ensures var r := Apply(p, RemovalChange(p, isDev, name));
      Deps(r, isDev).Keys == Deps(p, isDev).Keys - {name} &&
      (forall k :: k in Deps(r, isDev) ==> Deps(r, isDev)[k] == Deps(p, isDev)[k]) &&
      (if isDev then r.dependencies == p.dependencies else r.devDependencies == p.devDependencies) &&
      r.scripts == p.scripts && r.name == p.name && r.version == p.version
  {
  }

  /** Adding a dependency that was not in its record and removing it again
      gives the record back. */
  lemma AddThenRemoveDependency(p: PackageJson, isDev: bool, name: string, version: string)
    requires name !in Deps(p, isDev)
    ensures var added := Apply(p, DependencyChange(p, isDev, name, version));
      Deps(Apply(added, RemovalChange(added, isDev, name)), isDev) == Deps(p, isDev)
  {
    var added := Apply(p, DependencyChange(p, isDev, name, version));
    DependencyChangeMeaning(p, isDev, name, version);
    RemovalChangeMeaning(added, isDev, name);
    var r := Deps(Apply(added, RemovalChange(added, isDev, name)), isDev);
    assert r.Keys == Deps(p, isDev).Keys;
  }

  /** The change `updateScript(name, command)` makes. */
  function ScriptChange(p: PackageJson, name: string, command: string): (r: FieldChange)
    ensures r.SetScripts? && r.scripts.Keys == Scripts(p).Keys + {name} && r.scripts[name] == command
    ensures forall k :: k in Scripts(p) && k != name ==> r.scripts[k] == Scripts(p)[k]
  {
    SetScripts(Scripts(p)[name := command])
  }

  /** The change `removeScript(name)` makes. */
  function ScriptRemoval(p: PackageJson, name: string): (r: FieldChange)
    ensures r.SetScripts? && r.scripts.Keys == Scripts(p).Keys - {name}
    ensures forall k :: k in r.scripts ==> r.scripts[k] == Scripts(p)[k]
  {
    SetScripts(Scripts(p) - {name})
  }

  /** Changing a script's command to the one it has changes nothing but
      turning a missing `scripts` record into an empty one. */
  lemma ScriptChangeSame(p: PackageJson, name: string)
    requires name in Scripts(p)
    ensures Apply(p, ScriptChange(p, name, Scripts(p)[name])) == p.(scripts := Some(Scripts(p)))
  {
    assert Scripts(p)[name := Scripts(p)[name]] == Scripts(p);
  }

  /** The default version of the three add forms; the script form is the
      same component, so a new script's command also starts as this text. */
  const NewEntryVersion := "^1.0.0"

  class PackageJsonEditor {
    const path: string
    var packageJson: Option<PackageJson>
    var loading: bool
    var saving: bool
    var error: Option<string>
    var isDirty: bool
    var showAddDep: bool
    var showAddDevDep: bool
    var showAddScript: bool

    /** The editor before its first load has finished. */
    constructor(path: string)
      ensures this.path == path && packageJson == None && loading && !saving && error == None && !isDirty
      ensures !showAddDep && !showAddDevDep && !showAddScript
    {
      this.path := path;
      packageJson, loading, saving, error, isDirty := None, true, false, None, false;
      showAddDep, showAddDevDep, showAddScript := false, false, false;
    }

    /** The save button is enabled when there are changes and no save is
        running. */
    predicate CanSave()
      reads this
    {
      isDirty && !saving
    }

    /** `loadPackageJson`: a read replaces the manifest and clears the dirty
        flag; a failed read keeps the old manifest and shows the error. */
    method Load(read: Result<PackageJson, Thrown>)
      modifies this
      ensures read.Ok? ==> packageJson == Some(read.value) && !isDirty && error == None
      ensures read.Err? ==>
        packageJson == old(packageJson) && isDirty == old(isDirty) &&
        error == Some(ErrorText(read.error, "Failed to load package.json"))
      ensures !loading && saving == old(saving)
      ensures showAddDep == old(showAddDep) && showAddDevDep == old(showAddDevDep) && showAddScript == old(showAddScript)
    {
      loading, error := true, None;
      match read {
        case Ok(data) =>
          packageJson, isDirty := Some(data), false;
        case Err(thrown) =>
          error := Some(ErrorText(thrown, "Failed to load package.json"));
      }
      loading := false;
    }

    /** `handleSave`: nothing without a manifest; otherwise the manifest is
        written to the editor's path, and a write that succeeds clears the
        dirty flag while one that fails shows the error. */
    method Save(write: Result<(), Thrown>) returns (written: Option<(string, PackageJson)>)
      modifies this
      ensures written.Some? <==> old(packageJson).Some?
      ensures written.Some? ==> written.value == (path, old(packageJson).value)
      ensures written.Some? && write.Ok? ==> !isDirty && error == old(error) && !CanSave()
      ensures written.Some? && write.Err? ==>
        isDirty == old(isDirty) && error == Some(ErrorText(write.error, "Failed to save package.json"))
      ensures written.None? ==> isDirty == old(isDirty) && error == old(error) && saving == old(saving)
      ensures written.Some? ==> !saving
      ensures packageJson == old(packageJson) && loading == old(loading)
      ensures showAddDep == old(showAddDep) && showAddDevDep == old(showAddDevDep) && showAddScript == old(showAddScript)
    {
      if packageJson.None? {
        return None;
      }
      saving := true;
      written := Some((path, packageJson.value));
      if write.Ok? {
        isDirty := false;
      } else {
        error := Some(ErrorText(write.error, "Failed to save package.json"));
      }
      saving := false;
    }

    /** `updateField`: nothing without a manifest; otherwise that field
        changes and the manifest is dirty. */
    method UpdateField(change: FieldChange)
      modifies this
      ensures old(packageJson).None? ==> packageJson == None && isDirty == old(isDirty)
      ensures old(packageJson).Some? ==> packageJson == Some(Apply(old(packageJson).value, change)) && isDirty
      ensures loading == old(loading) && saving == old(saving) && error == old(error)
      ensures showAddDep == old(showAddDep) && showAddDevDep == old(showAddDevDep) && showAddScript == old(showAddScript)
    {
      if packageJson.None? {
        return;
      }
      packageJson := Some(Apply(packageJson.value, change));
      isDirty := true;
    }

    /** `updateDependency(isDev, name, version)`. */
    method UpdateDependency(isDev: bool, name: string, version: string)
      modifies this
      ensures old(packageJson).None? ==> packageJson == None && isDirty == old(isDirty)
      ensures old(packageJson).Some? ==>
        packageJson == Some(Apply(old(packageJson).value, DependencyChange(old(packageJson).value, isDev, name, version))) &&
        isDirty
      ensures loading == old(loading) && saving == old(saving) && error == old(error)
      ensures showAddDep == old(showAddDep) && showAddDevDep == old(showAddDevDep) && showAddScript == old(showAddScript)
    {
      if packageJson.None? {
        return;
      }
      var p := packageJson.value;
      var deps := Deps(p, isDev)[name := version];
      UpdateField(if isDev then SetDevDependencies(deps) else SetDependencies(deps));
    }

    /** `removeDependency(isDev, name)`. */
    method RemoveDependency(isDev: bool, name: string)
      modifies this
      ensures old(packageJson).None? ==> packageJson == None && isDirty == old(isDirty)
      ensures old(packageJson).Some? ==>
        packageJson == Some(Apply(old(packageJson).value, RemovalChange(old(packageJson).value, isDev, name))) && isDirty
      ensures loading == old(loading) && saving == old(saving) && error == old(error)
      ensures showAddDep == old(showAddDep) && showAddDevDep == old(showAddDevDep) && showAddScript == old(showAddScript)
    {
      if packageJson.None? {
        return;
      }
      var p := packageJson.value;
      var deps := Deps(p, isDev) - {name};
      UpdateField(if isDev then SetDevDependencies(deps) else SetDependencies(deps));
    }

    /** `addDependency(isDev, name, version)`: the dependency is set and only
        the form of the record it went to closes. */
    method AddDependency(isDev: bool, name: string, version: string)
      modifies this
      ensures old(packageJson).None? ==> packageJson == None && isDirty == old(isDirty)
      ensures old(packageJson).Some? ==>
        packageJson == Some(Apply(old(packageJson).value, DependencyChange(old(packageJson).value, isDev, name, version))) &&
        isDirty
      ensures isDev ==> !showAddDevDep && showAddDep == old(showAddDep)
      ensures !isDev ==> !showAddDep && showAddDevDep == old(showAddDevDep)
      ensures showAddScript == old(showAddScript)
      ensures loading == old(loading) && saving == old(saving) && error == old(error)
    {
      UpdateDependency(isDev, name, version);
      if isDev {
        showAddDevDep := false;
      } else {
        showAddDep := false;
      }
    }

    /** `updateScript(name, command)`. */
    method UpdateScript(name: string, command: string)
      modifies this
      ensures old(packageJson).None? ==> packageJson == None && isDirty == old(isDirty)
      ensures old(packageJson).Some? ==>
        packageJson == Some(Apply(old(packageJson).value, ScriptChange(old(packageJson).value, name, command))) && isDirty
      ensures loading == old(loading) && saving == old(saving) && error == old(error)
      ensures showAddDep == old(showAddDep) && showAddDevDep == old(showAddDevDep) && showAddScript == old(showAddScript)
    {
      if packageJson.None? {
        return;
      }
      var scripts := Scripts(packageJson.value)[name := command];
      UpdateField(SetScripts(scripts));
    }

    /** `removeScript(name)`. */
    method RemoveScript(name: string)
      modifies this
      ensures old(packageJson).None? ==> packageJson == None && isDirty == old(isDirty)
      ensures old(packageJson).Some? ==>
        packageJson == Some(Apply(old(packageJson).value, ScriptRemoval(old(packageJson).value, name))) && isDirty
      ensures loading == old(loading) && saving == old(saving) && error == old(error)
      ensures showAddDep == old(showAddDep) && showAddDevDep == old(showAddDevDep) && showAddScript == old(showAddScript)
    {
      if packageJson.None? {
        return;
      }
      var scripts := Scripts(packageJson.value) - {name};
      UpdateField(SetScripts(scripts));
    }

    /** `addScript(name, command)`: the script is set and its form closes. */
    method AddScript(name: string, command: string)
      modifies this
      ensures old(packageJson).None? ==> packageJson == None && isDirty == old(isDirty)
      ensures old(packageJson).Some? ==>
        packageJson == Some(Apply(old(packageJson).value, ScriptChange(old(packageJson).value, name, command))) && isDirty
      ensures !showAddScript && showAddDep == old(showAddDep) && showAddDevDep == old(showAddDevDep)
      ensures loading == old(loading) && saving == old(saving) && error == old(error)
    {
      UpdateScript(name, command);
      showAddScript := false;
    }

    /** The Add button of one of the forms: which record it was opened for
        decides what it adds to. */
    method ShowAddForm(target: AddTarget)
      modifies this
      ensures target == DependencyForm ==> showAddDep && showAddDevDep == old(showAddDevDep) && showAddScript == old(showAddScript)
      ensures target == DevDependencyForm ==> showAddDevDep && showAddDep == old(showAddDep) && showAddScript == old(showAddScript)
      ensures target == ScriptForm ==> showAddScript && showAddDep == old(showAddDep) && showAddDevDep == old(showAddDevDep)
      ensures packageJson == old(packageJson) && isDirty == old(isDirty)
      ensures loading == old(loading) && saving == old(saving) && error == old(error)
    {
      match target
      case DependencyForm => showAddDep := true;
      case DevDependencyForm => showAddDevDep := true;
      case ScriptForm => showAddScript := true;
    }

    /** A form's Cancel button: only that form closes. */
    method CancelAddForm(target: AddTarget)
      modifies this
      ensures target == DependencyForm ==> !showAddDep && showAddDevDep == old(showAddDevDep) && showAddScript == old(showAddScript)
      ensures target == DevDependencyForm ==> !showAddDevDep && showAddDep == old(showAddDep) && showAddScript == old(showAddScript)
      ensures target == ScriptForm ==> !showAddScript && showAddDep == old(showAddDep) && showAddDevDep == old(showAddDevDep)
      ensures packageJson == old(packageJson) && isDirty == old(isDirty)
      ensures loading == old(loading) && saving == old(saving) && error == old(error)
    {
      match target
      case DependencyForm => showAddDep := false;
      case DevDependencyForm => showAddDevDep := false;
      case ScriptForm => showAddScript := false;
    }

    /** A form's Add button: a blank name does nothing; otherwise the trimmed
        name and the second field go to the record the form belongs to. */
    method SubmitAddForm(target: AddTarget, form: AddForm) returns (added: Option<(string, string)>)
      modifies this, form
      ensures added.Some? <==> Trim(old(form.name)) != ""
      ensures added.Some? ==>
        added.value == (Trim(old(form.name)), old(form.version)) &&
        form.name == "" && form.version == form.initialVersion &&
        (old(packageJson).None? ==> packageJson == None) &&
        (old(packageJson).Some? ==> packageJson == Some(Apply(old(packageJson).value, TargetChange(old(packageJson).value, target, added.value.0, added.value.1))))
      ensures added.Some? ==> !Showing(target)
      ensures added.None? ==>
        packageJson == old(packageJson) && isDirty == old(isDirty) &&
        form.name == old(form.name) && form.version == old(form.version) &&
        showAddDep == old(showAddDep) && showAddDevDep == old(showAddDevDep) && showAddScript == old(showAddScript)
      ensures loading == old(loading) && saving == old(saving) && error == old(error)
    {
      added := form.Submit();
      if added.Some? {
        var (n, v) := added.value;
        match target
        case DependencyForm => AddDependency(false, n, v);
        case DevDependencyForm => AddDependency(true, n, v);
        case ScriptForm => AddScript(n, v);
      }
    }

    predicate Showing(target: AddTarget)
      reads this
    {
      match target
      case DependencyForm => showAddDep
      case DevDependencyForm => showAddDevDep
      case ScriptForm => showAddScript
    }
  }

  datatype AddTarget = DependencyForm | DevDependencyForm | ScriptForm

  /** What a form adds to the manifest. */
  function TargetChange(p: PackageJson, target: AddTarget, name: string, value: string): FieldChange {
    match target
    case DependencyForm => DependencyChange(p, false, name, value)
    case DevDependencyForm => DependencyChange(p, true, name, value)
    case ScriptForm => ScriptChange(p, name, value)
  }
}

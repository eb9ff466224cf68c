/** What the two manifest editors (gui-edit/src/components/manifest/) share:
    the form that adds a named entry, and the text shown for a failed read
    or write. */
module ManifestForms {
  import opened Wrappers
  import opened Strings

  /** What a failed call threw: an `Error` with its message, or something
      else. */
  type Thrown = Option<string>

  /** `err instanceof Error ? err.message : fallback`. */
  function ErrorText(thrown: Thrown, fallback: string): (r: string)
    ensures thrown.Some? ==> r == thrown.value
    ensures thrown.None? ==> r == fallback
  {
    if thrown.Some? then thrown.value else fallback
  }

  /** `{ ...m }` for a record that may be missing: the missing one spreads to
      nothing. */
  function OrEmpty<V>(m: Option<map<string, V>>): map<string, V> {
    if m.Some? then m.value else map[]
  }

  /** A name as the form passes it on: not empty and without whitespace
      around it. */
  predicate Clean(s: string) {
    s != [] && !IsSpace(s[0]) && !IsSpace(s[|s| - 1])
  }

  /** `AddDependencyForm`: a name and a version field; the version starts at
      the editor's default. */
  class AddForm {
    var name: string
    var version: string
    const initialVersion: string

    constructor(initialVersion: string)
      ensures this.initialVersion == initialVersion
      ensures name == "" && version == initialVersion
    {
      this.initialVersion := initialVersion;
      name, version := "", initialVersion;
    }

    method SetName(s: string)
      modifies this
      ensures name == s && version == old(version)
    {
      name := s;
    }

    method SetVersion(s: string)
      modifies this
      ensures version == s && name == old(name)
    {
      version := s;
    }

    /** `handleSubmit`: a name that is blank once trimmed adds nothing and
        leaves the form as it is; otherwise the trimmed name goes with the
        version, and both fields start over. */
    method Submit() returns (added: Option<(string, string)>)
      modifies this
      ensures added.Some? <==> Trim(old(name)) != ""
      ensures added.Some? ==>
        added.value == (Trim(old(name)), old(version)) && Clean(added.value.0) &&
        name == "" && version == initialVersion
      ensures added.None? ==> name == old(name) && version == old(version)
    {
      var trimmed := Trim(name);
      if trimmed == "" {
        return None;
      }
      TrimClean(name);
      added := Some((trimmed, version));
      name, version := "", initialVersion;
    }
  }
}

/** The doctor's `.env` comparison (cli/src/util/env.rs): the keys a `.env` text
    defines, kept as a sorted set, and the keys of the example file that the
    actual file lacks. Lines are split on `\n`; a trailing `\r` is whitespace and
    goes with the trim. */
module EnvKeys {
  import opened Wrappers
  import opened Strings
  import opened Ordering

  /** The key one line defines: the trimmed text before its first `=`; nothing for
      a blank line, a comment, a line without `=` or an empty key. */
  function LineKey(line: string): Option<string> {
    var t := Trim(line);
    if t == [] || StartsWith(t, "#") then None
    else
      var eq := IndexOf(t, "=");
      if eq < 0 then None
      else
        var k := Trim(t[..eq]);
        if k == [] then None else Some(k)
  }

  /** The key each line defines, line by line. */
  function LineKeys(lines: seq<string>): (r: seq<Option<string>>)
    ensures |r| == |lines|
  {
    if lines == [] then [] else LineKeys(lines[..|lines| - 1]) + [LineKey(lines[|lines| - 1])]
  }

  lemma {:induction false} LineKeysAt(lines: seq<string>, i: nat)
    requires i < |lines|
    ensures LineKeys(lines)[i] == LineKey(lines[i])
  {
    if i < |lines| - 1 {
      LineKeysAt(lines[..|lines| - 1], i);
    }
  }

  /** The set of the defined keys, ascending, as a `BTreeSet` collects them. */
  function KeySet(keys: seq<Option<string>>): (r: seq<string>)
    ensures StrictlySorted(r)
  {
    if keys == [] then []
    else
      var set_ := KeySet(keys[..|keys| - 1]);
      var k := keys[|keys| - 1];
      if k.Some? then SetInsert(set_, k.value) else set_
  }

  /** The keys a text defines. */
  function EnvKeysOf(input: string): seq<string> {
    KeySet(LineKeys(Split(input, '\n')))
  }

  /** The key of one line, computed as the loop body of `parse_env_keys` does. */
  method ParseLine(raw: string) returns (k: Option<string>)
    ensures k == LineKey(raw)
  {
    var line := Trim(raw);
    if line == [] || StartsWith(line, "#") {
      return None;
    }
    k := None;
    var eq := IndexOf(line, "=");
    if eq >= 0 {
      var key := Trim(line[..eq]);
      if key != [] {
        k := Some(key);
      }
    }
  }

  /** The key of line `i` of the text. */
  method ParseLineAt(lines: seq<string>, i: nat) returns (k: Option<string>)
    requires i < |lines|
    ensures k == LineKeys(lines)[i]
  {
    LineKeysAt(lines, i);
    k := ParseLine(lines[i]);
  }

  /** `parse_env_keys`: inserts the key of every line into a `BTreeSet`. */
  method ParseEnvKeys(input: string) returns (keys: seq<string>)
    ensures keys == EnvKeysOf(input)
  {
    var lines := Split(input, '\n');
    ghost var ks := LineKeys(lines);
    keys := [];
    var i := 0;
    while i < |lines|
      invariant 0 <= i <= |lines|
      invariant keys == KeySet(ks[..i])
    {
      var k := ParseLineAt(lines, i);
      KeySetSnoc(ks, i);
      if k.Some? {
        keys := SetInsert(keys, k.value);
      }
      i := i + 1;
    }
    assert ks[..|lines|] == ks;
  }

  lemma KeySetSnoc(keys: seq<Option<string>>, i: nat)
    requires i < |keys|
    ensures KeySet(keys[..i + 1]) ==
      if keys[i].Some? then SetInsert(KeySet(keys[..i]), keys[i].value) else KeySet(keys[..i])
  {
    assert keys[..i + 1][..i] == keys[..i];
  }

  /** A key is in the set exactly when some line defines it. */
  lemma {:induction false} KeySetMembers(keys: seq<Option<string>>)
    ensures forall k :: k in KeySet(keys) <==> Some(k) in keys
  {
    if keys != [] {
      var init := keys[..|keys| - 1];
      KeySetMembers(init);
      assert keys == init + [keys[|keys| - 1]];
    }
  }

  lemma LineKeysMembers(lines: seq<string>, k: string)
    ensures Some(k) in LineKeys(lines) <==> exists i :: 0 <= i < |lines| && LineKey(lines[i]) == Some(k)
  {
    var ks := LineKeys(lines);
    if Some(k) in ks {
      var i :| 0 <= i < |ks| && ks[i] == Some(k);
      LineKeysAt(lines, i);
    }
    if exists i :: 0 <= i < |lines| && LineKey(lines[i]) == Some(k) {
      var i :| 0 <= i < |lines| && LineKey(lines[i]) == Some(k);
      LineKeysAt(lines, i);
      assert ks[i] in ks;
    }
  }

  /** A key is in the key set of a text exactly when one of its lines defines it
      (`LineKeysMembers` says what that means line by line). */
  lemma EnvKeysMembers(input: string)
    ensures forall k :: k in EnvKeysOf(input) <==> Some(k) in LineKeys(Split(input, '\n'))
  {
    KeySetMembers(LineKeys(Split(input, '\n')));
  }

  /** Blank lines and comments define no key. */
  lemma BlankOrCommentNoKey(line: string)
    requires AllSpace(line) || StartsWith(Trim(line), "#")
    ensures LineKey(line).None?
  {
    TrimEmptyIffAllSpace(line);
  }

  /** The first `=` of `key=value` is the one after the key when the key has none. */
  lemma FirstEquals(key: string, value: string)
    requires '=' !in key
    ensures IndexOf(key + "=" + value, "=") == |key|
  {
    var line := key + "=" + value;
    assert line[|key|..|key| + 1] == "=";
    assert OccursAt(line, "=", |key|);
    IndexOfFirst(line, "=");
    forall j | 0 <= j < |key| ensures !OccursAt(line, "=", j) {
      assert line[j..j + 1] == [key[j]];
      assert key[j] in key;
    }
  }

  /** A line `key=value` without surrounding whitespace, whose key has no `=`, no
      surrounding whitespace and does not start a comment, defines that key. */
  lemma AssignmentDefinesKey(key: string, value: string)
    requires key != [] && '=' !in key && key[0] != '#'
    requires !IsSpace(key[0]) && !IsSpace(key[|key| - 1])
    requires value == [] || !IsSpace(value[|value| - 1])
    ensures LineKey(key + "=" + value) == Some(key)
  {
    var line := key + "=" + value;
    assert line[0] == key[0];
    assert line[|line| - 1] == if value == [] then '=' else value[|value| - 1];
    TrimUnchanged(line);
    TrimUnchanged(key);
    FirstEquals(key, value);
    assert line[..1] != "#";
    assert line[..|key|] == key;
  }

  /** The elements of the sorted set `a` that are not in `b`, ascending. */
  function Difference(a: seq<string>, b: seq<string>): (r: seq<string>)
    requires StrictlySorted(a)
    ensures StrictlySorted(r)
    ensures forall k :: k in r <==> k in a && k !in b
  {
    if a == [] then []
    else
      var t := a[1..];
      assert StrictlySorted(t) by {
        forall i, j | 0 <= i < j < |t| ensures StrLt(t[i], t[j]) {
          assert t[i] == a[i + 1] && t[j] == a[j + 1];
        }
      }
      assert a == [a[0]] + t;
      var rest := Difference(t, b);
      if a[0] in b then rest
      else
        forall k | k in rest ensures StrLt(a[0], k) {
          var j :| 0 <= j < |t| && t[j] == k;
          assert a[j + 1] == k;
        }
        SortedCons(a[0], rest);
        [a[0]] + rest
  }

  /** `missing_env_keys`: the keys of the example that the actual text lacks. */
  function MissingEnvKeys(example: string, actual: string): seq<string> {
    Difference(EnvKeysOf(example), EnvKeysOf(actual))
  }

  /** The missing keys, ascending, are exactly those some example line defines and
      no actual line does. */
  lemma MissingEnvKeysMembers(example: string, actual: string)
    ensures StrictlySorted(MissingEnvKeys(example, actual))
    ensures forall k :: k in MissingEnvKeys(example, actual) <==>
      Some(k) in LineKeys(Split(example, '\n')) && Some(k) !in LineKeys(Split(actual, '\n'))
  {
    EnvKeysMembers(example);
    EnvKeysMembers(actual);
  }

  /** Nothing is left when every element of `a` is in `b`. */
  lemma {:induction false} DifferenceCovered(a: seq<string>, b: seq<string>)
    requires StrictlySorted(a)
    requires forall k :: k in a ==> k in b
    ensures Difference(a, b) == []
  {
    if a != [] {
      assert a[0] in a;
      var t := a[1..];
      assert forall k :: k in t ==> k in a;
      DifferenceCovered(t, b);
    }
  }

  /** A text lacks none of its own keys. */
  lemma MissingFromItself(text: string)
    ensures MissingEnvKeys(text, text) == []
  {
    DifferenceCovered(EnvKeysOf(text), EnvKeysOf(text));
  }
}

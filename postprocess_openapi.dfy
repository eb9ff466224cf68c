/** The post-processing of the generated OpenAPI client
    (apps/be/scripts/postprocess-openapi.ts): two string replacements that each
    act at most once, and a write of the file only when its text changed. */
module PostprocessOpenapi {
  import opened Wrappers
  import opened Strings

  /** The text JavaScript's `String.prototype.replace` puts in place of a match of
      a string pattern (the GetSubstitution operation of ECMA-262): `$$` is a
      dollar sign, `$&` the matched text, `` $` `` the text before the match and
      `$'` the text after it. Any other character is copied, `$1` and `$<` as
      well, since a string pattern has no groups. */
  function Substitution(to: string, matched: string, before: string, after: string): string
    decreases |to|
  {
    if to == [] then []
    else if |to| >= 2 && to[0] == '$' && to[1] == '$' then "$" + Substitution(to[2..], matched, before, after)
    else if |to| >= 2 && to[0] == '$' && to[1] == '&' then matched + Substitution(to[2..], matched, before, after)
    else if |to| >= 2 && to[0] == '$' && to[1] == '`' then before + Substitution(to[2..], matched, before, after)
    else if |to| >= 2 && to[0] == '$' && to[1] == '\'' then after + Substitution(to[2..], matched, before, after)
    else [to[0]] + Substitution(to[1..], matched, before, after)
  }

  /** A replacement text without a dollar sign is inserted as it is. */
  lemma {:induction false} SubstitutionPlain(to: string, matched: string, before: string, after: string)
    requires '$' !in to
    ensures Substitution(to, matched, before, after) == to
    decreases |to|
  {
    if to != [] {
      assert to[0] != '$';
      assert forall c :: c in to[1..] ==> c in to;
      SubstitutionPlain(to[1..], matched, before, after);
      assert to == [to[0]] + to[1..];
    }
  }

  /** `replaceOnce(source, from, to)`: `source.replace(from, to)` when `source`
      contains `from`, else the source. */
  function ReplaceOnce(source: string, from: string, to: string): string {
    if !Contains(source, from) then source
    else
      IndexOfFirst(source, from);
      var i := IndexOf(source, from);
      var before, after := source[..i], source[i + |from|..];
      before + Substitution(to, from, before, after) + after
  }

  /** Without an occurrence of `from` the source comes back unchanged. */
  lemma ReplaceOnceAbsent(source: string, from: string, to: string)
    requires !Contains(source, from)
    ensures ReplaceOnce(source, from, to) == source
  {
  }

  /** With an occurrence, exactly the first one is replaced by the expanded
      replacement text: what comes before it and after it is kept. A replacement
      text without a dollar sign, as every caller passes, is inserted verbatim,
      and the length changes by the difference in length. */
  lemma ReplaceOncePresent(source: string, from: string, to: string)
    requires Contains(source, from)
    ensures var i := IndexOf(source, from);
      0 <= i && forall j :: 0 <= j < i ==> !OccursAt(source, from, j)
    ensures var i := IndexOf(source, from);
      var before, after := source[..i], source[i + |from|..];
      var r := ReplaceOnce(source, from, to);
      r == before + Substitution(to, from, before, after) + after
    ensures '$' !in to ==> var i := IndexOf(source, from);
      var r := ReplaceOnce(source, from, to);
      r == source[..i] + to + source[i + |from|..] &&
      |r| == |source| - |from| + |to| &&
      OccursAt(r, to, i)
  {
    IndexOfFirst(source, from);
    var i := IndexOf(source, from);
    if '$' !in to {
      SubstitutionPlain(to, from, source[..i], source[i + |from|..]);
      var r := source[..i] + to + source[i + |from|..];
      assert r[i..i + |to|] == to;
    }
  }

  /** The dollar patterns are expanded: `"ab".replace("a", "$&$&")` is `"aab"`,
      not the literal `"$&$&b"`. */
  lemma ReplaceOnceExpands()
    ensures ReplaceOnce("ab", "a", "$&$&") == "aab"
    ensures ReplaceOnce("ab", "a", "$$") == "$b"
    ensures ReplaceOnce("xab", "a", "[$`|$']") == "x[x|b]b"
  {
    assert OccursAt("ab", "a", 0);
    assert IndexOf("ab", "a") == 0;
    assert OccursAt("xab", "a", 1);
    assert "xab"[..1] == "x";
    assert IndexOf("xab", "a") == 1;
  }

  const FormDataImport: string := "import FormData from 'form-data';\n"
  const FormDataGlobal: string := "const FormData = globalThis.FormData;\n"
  const FormDataCtor: string := "const FormDataCtor = globalThis.FormData;\n"

  /** The two string replacements of `main`: either way of getting `FormData`
      becomes the `FormDataCtor` constant. */
  function RewriteImports(original: string): string {
    ReplaceOnce(ReplaceOnce(original, FormDataImport, FormDataCtor), FormDataGlobal, FormDataCtor)
  }

  /** `main`: the file's new text, written only when it differs from the original.
      The two regular-expression rewrites are the given `rewriteRegexes`. */
  method Postprocess(original: string, rewriteRegexes: string -> string) returns (written: Option<string>)
    ensures var next := rewriteRegexes(RewriteImports(original));
      (written.Some? <==> next != original) && (written.Some? ==> written.value == next)
  {
    var next := original;
    next := ReplaceOnce(next, FormDataImport, FormDataCtor);
    next := ReplaceOnce(next, FormDataGlobal, FormDataCtor);
    next := rewriteRegexes(next);
    if next != original {
      written := Some(next);
    } else {
      written := None;
    }
  }

  /** A file with the `form-data` import gets the `FormDataCtor` constant where
      that import stood, before the second replacement looks at it. */
  lemma ImportBecomesCtor(original: string)
    requires Contains(original, FormDataImport)
    ensures var i := IndexOf(original, FormDataImport);
      OccursAt(ReplaceOnce(original, FormDataImport, FormDataCtor), FormDataCtor, i)
  {
    assert '$' !in FormDataCtor;
    ReplaceOncePresent(original, FormDataImport, FormDataCtor);
  }
}

/** Configuration properties and the key shape both loaders match,
    `^buildcli\.db\.<kind>\.([a-zA-Z0-9_]+)\.([a-zA-Z0-9_]+)$`. */
module ConfigKeys {
  import opened Text
  import opened Models

  /** One `BuildCLIConfig.ImmutableProperty`; its value may be null. */
  datatype Property = Property(name: string, value: Option<string>)

  /** The fixed part of the key before the two captured segments. */
  function Head(kind: string): string {
    "buildcli.db." + kind + "."
  }

  /** `[a-zA-Z0-9_]+`. */
  predicate IsSegment(s: string) {
    |s| > 0 && AllWordChars(s)
  }

  /** `name` matches the whole pattern, with `a` and `b` as groups 1 and 2. */
  predicate KeyShape(name: string, kind: string, a: string, b: string) {
    IsSegment(a) && IsSegment(b) && name == Head(kind) + a + "." + b
  }

  /** `Matcher.matches()` with the key pattern: groups 1 and 2, or no match. */
  function ParseKey(name: string, kind: string): (r: Option<(string, string)>)
    ensures r.Some? ==> KeyShape(name, kind, r.value.0, r.value.1)
  {
    var h := Head(kind);
    if !(h <= name) then None
    else
      var rest := name[|h|..];
      if '.' !in rest then None
      else
        var i := IndexOf(rest, '.');
        if IsSegment(rest[..i]) && IsSegment(rest[i + 1..]) then
          assert name == h + rest[..i] + "." + rest[i + 1..] by {
            assert rest == rest[..i] + "." + rest[i + 1..];
          }
          Some((rest[..i], rest[i + 1..]))
        else None
  }

  /** Every key of the pattern's shape is matched, with exactly its segments. */
  lemma ParseKeyComplete(name: string, kind: string, a: string, b: string)
    requires KeyShape(name, kind, a, b)
    ensures ParseKey(name, kind) == Some((a, b))
  {
    var h := Head(kind);
    assert name[..|h|] == h;
    var rest := name[|h|..];
    assert rest == a + "." + b;
    assert rest[|a|] == '.';
    assert forall k :: 0 <= k < |a| ==> rest[k] == a[k] && IsWordChar(a[k]);
    assert IndexOf(rest, '.') == |a|;
    assert rest[..|a|] == a && rest[|a| + 1..] == b;
  }

  /** The two segments determine the key and vice versa. */
  lemma ParseKeyIff(name: string, kind: string, a: string, b: string)
    ensures ParseKey(name, kind) == Some((a, b)) <==> KeyShape(name, kind, a, b)
  {
    if KeyShape(name, kind, a, b) {
      ParseKeyComplete(name, kind, a, b);
    }
  }

  /** A property is considered when its name starts with the configured
      prefix and the pattern matches. */
  predicate Accepted(p: Property, prefix: string, kind: string) {
    prefix <= p.name && ParseKey(p.name, kind).Some?
  }

  /** When the configured prefix is a prefix of the pattern's fixed part,
      the prefix filter removes nothing the pattern would accept. */
  lemma PrefixFilterRedundant(p: Property, prefix: string, kind: string)
    requires prefix <= Head(kind)
    ensures Accepted(p, prefix, kind) <==> ParseKey(p.name, kind).Some?
  {
    if ParseKey(p.name, kind).Some? {
      assert Head(kind) <= p.name;
    }
  }
}

/**
 * DatabaseInitializer.extractSchemaName: the value of the `currentSchema=`
 * parameter of the configured JDBC URL, or null when the URL has none.
 */
module Config {
  import opened Wrappers
  import opened Text

  const SchemaKey: string := "currentSchema="

  /**
   * The result is the text that starts right after the FIRST occurrence of
   * `currentSchema=` and runs up to the first '&' after it, or to the end.
   */
  function ExtractSchemaName(jdbcUrl: string): (r: Option<string>)
    ensures r.None? <==> !Contains(jdbcUrl, SchemaKey)
    ensures r.Some? ==>
      var start := IndexOf(jdbcUrl, SchemaKey, 0) + |SchemaKey|;
      && start + |r.value| <= |jdbcUrl|
      && jdbcUrl[start..start + |r.value|] == r.value
      && '&' !in r.value
      && (start + |r.value| == |jdbcUrl| || jdbcUrl[start + |r.value|] == '&')
  {
    var schemaIndex := IndexOf(jdbcUrl, SchemaKey, 0);
    if schemaIndex < 0 then None
    else
      var start := schemaIndex + |SchemaKey|;
      var end := IndexOfChar(jdbcUrl, '&', start);
      if end > 0 then Some(jdbcUrl[start..end])
      else Some(jdbcUrl[start..])
  }

  /**
   * Round trip: a URL built as prefix + "currentSchema=" + schema + rest, where
   * the key does not occur earlier, the schema holds no '&' and the rest is
   * empty or starts a new parameter, yields exactly that schema.
   */
  lemma {:induction false} ExtractSchemaNameRoundTrip(prefix: string, schema: string, rest: string)
    requires forall i :: 0 <= i < |prefix| ==> !OccursAt(prefix + SchemaKey, SchemaKey, i)
    requires '&' !in schema
    requires rest == [] || rest[0] == '&'
    ensures ExtractSchemaName(prefix + SchemaKey + schema + rest) == Some(schema)
  {
    var url := prefix + SchemaKey + schema + rest;
    forall i | 0 <= i < |prefix| ensures !OccursAt(url, SchemaKey, i) {
      assert OccursAt(url, SchemaKey, i) ==> OccursAt(prefix + SchemaKey, SchemaKey, i) by {
        if OccursAt(url, SchemaKey, i) {
          assert url[i..i + |SchemaKey|] == (prefix + SchemaKey)[i..i + |SchemaKey|];
        }
      }
    }
    assert OccursAt(url, SchemaKey, |prefix|) by {
      assert url[|prefix|..|prefix| + |SchemaKey|] == SchemaKey;
    }
    assert IndexOf(url, SchemaKey, 0) == |prefix|;
    var start := |prefix| + |SchemaKey|;
    assert url[start..start + |schema|] == schema;
    forall i | start <= i < start + |schema| ensures url[i] != '&' {
      assert url[i] == schema[i - start];
    }
    if rest != [] {
      assert url[start + |schema|] == '&';
    }
  }

  /** The part of the project's JDBC URL in front of the schema parameter. */
  const ProjectUrlPrefix: string := "jdbc:postgresql://localhost:5432/projedata?"

  lemma {:induction false} ProjectUrlPrefixHasNoKey()
    ensures forall i :: 0 <= i < |ProjectUrlPrefix| ==>
      !OccursAt(ProjectUrlPrefix + SchemaKey, SchemaKey, i)
  {
    var s := ProjectUrlPrefix + SchemaKey;
    forall i | 0 <= i < |ProjectUrlPrefix| ensures !OccursAt(s, SchemaKey, i) {
      NotOccursAt(s, SchemaKey, i);
    }
  }

  /** The URL of the project's configuration names the schema inventory_db. */
  lemma {:induction false} ProjectUrl(jdbcUrl: string)
    requires jdbcUrl == "jdbc:postgresql://localhost:5432/projedata?currentSchema=inventory_db"
    ensures ExtractSchemaName(jdbcUrl) == Some("inventory_db")
  {
    ProjectUrlPrefixHasNoKey();
    assert jdbcUrl == ProjectUrlPrefix + SchemaKey + "inventory_db" + "";
    ExtractSchemaNameRoundTrip(ProjectUrlPrefix, "inventory_db", "");
  }

  /** A URL that ends with the key names the empty schema, not null. */
  lemma {:induction false} EmptySchema(prefix: string)
    requires forall i :: 0 <= i < |prefix| ==> !OccursAt(prefix + SchemaKey, SchemaKey, i)
    ensures ExtractSchemaName(prefix + SchemaKey) == Some("")
  {
    ExtractSchemaNameRoundTrip(prefix, "", "");
    assert prefix + SchemaKey + "" + "" == prefix + SchemaKey;
  }
}

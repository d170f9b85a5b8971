/**
 * The part of the Roux library the importer relies on: the shape of an
 * ingredient path (`@<namespace>/<pantry>/<ingredient>` or
 * `<pantry>/<ingredient>`) and the two accessors of a pantry descriptor it
 * reads (its root directory and its ingredient table).
 */
module Roux {
  import opened Wrappers
  import opened Paths

  /** One segment of an ingredient path: non-empty and free of '/'. */
  predicate IsSegment(s: string) {
    |s| > 0 && '/' !in s
  }

  /** A parsed ingredient path; `namespace` is the part after '@', if any. */
  datatype IngredientPath = IngredientPath(namespace: Option<string>, pantry: string, ingredient: string)
  {
    /**
     * The key of the pantry in the importer's pantry map: the namespace,
     * when there is one, stays part of the name.
     */
    function PantryKey(): string {
      match namespace
      case Some(ns) => "@" + ns + "/" + pantry
      case None => pantry
    }

    /** The import url this path is written as. */
    function Format(): string {
      PantryKey() + "/" + ingredient
    }

    /**
     * The paths the parser can produce: slash-free non-empty segments, a
     * pantry name that does not start with '.', and a bare pantry name that
     * does not start with '@' (which would make it a namespace).
     */
    predicate Valid() {
      && IsSegment(ingredient)
      && IsSegment(pantry)
      && pantry[0] != '.'
      && match namespace
         case Some(ns) => IsSegment(ns)
         case None => pantry[0] != '@'
    }
  }

  /**
   * `roux.parseIngredientPath`: `None` for any url that is not an ingredient
   * path, so absolute and relative file paths never parse.
   */
  function ParseIngredientPath(url: string): (r: Option<IngredientPath>)
    ensures r.Some? ==> r.value.Valid() && r.value.Format() == url
    ensures r.Some? ==> url[0] != '.' && url[0] != '/'
  {
    if |url| > 0 && url[0] == '@' then ParseNamespaced(url) else ParseBare(url)
  }

  /** `@<namespace>/<pantry>/<ingredient>`: split at the first two slashes. */
  function ParseNamespaced(url: string): (r: Option<IngredientPath>)
    requires |url| > 0 && url[0] == '@'
    ensures r.Some? ==> r.value.Valid() && r.value.namespace.Some? && r.value.Format() == url
  {
    var i := IndexOfSlash(url);
    if i == |url| then None
    else
      var rest := url[i + 1..];
      var j := IndexOfSlash(rest);
      if j == |rest| then None
      else
        var p := IngredientPath(Some(url[1..i]), rest[..j], rest[j + 1..]);
        if p.Valid() then
          assert rest == rest[..j] + "/" + rest[j + 1..];
          assert url == url[..1] + url[1..i] + "/" + rest;
          Some(p)
        else None
  }

  /** `<pantry>/<ingredient>`: split at the first slash. */
  function ParseBare(url: string): (r: Option<IngredientPath>)
    ensures r.Some? ==> r.value.Valid() && r.value.namespace.None? && r.value.Format() == url
  {
    var i := IndexOfSlash(url);
    if i == |url| then None
    else
      var p := IngredientPath(None, url[..i], url[i + 1..]);
      if p.Valid() then
        assert url == url[..i] + "/" + url[i + 1..];
        Some(p)
      else None
  }

  /** `a + "/" + b` splits uniquely when `a` has no slash. */
  lemma SplitAtFirstSlash(a: string, b: string, c: string, d: string)
    requires '/' !in a && '/' !in c
    requires a + "/" + b == c + "/" + d
    ensures a == c && b == d
  {
    IndexOfSlashAfter(a, b);
    IndexOfSlashAfter(c, d);
  }

  /** A bare ingredient path parses back from its url. */
  lemma FormatParseBare(p: IngredientPath)
    requires p.Valid() && p.namespace.None?
    ensures ParseIngredientPath(p.Format()) == Some(p)
  {
    var url := p.Format();
    assert url == p.pantry + "/" + p.ingredient;
    IndexOfSlashAfter(p.pantry, p.ingredient);
    assert url[0] == p.pantry[0];
  }

  /** A namespaced ingredient path parses back from its url. */
  lemma FormatParseNamespaced(p: IngredientPath)
    requires p.Valid() && p.namespace.Some?
    ensures ParseIngredientPath(p.Format()) == Some(p)
  {
    var ns := p.namespace.value;
    var head := "@" + ns;
    var rest := p.pantry + "/" + p.ingredient;
    var url := p.Format();
    assert url == head + "/" + rest;
    assert '/' !in head;
    IndexOfSlashAfter(head, rest);
    IndexOfSlashAfter(p.pantry, p.ingredient);
    assert url[0] == '@';
    assert url[1..|head|] == ns;
  }

  /** Every valid ingredient path parses back from the url it is written as. */
  lemma FormatParse(p: IngredientPath)
    requires p.Valid()
    ensures ParseIngredientPath(p.Format()) == Some(p)
  {
    if p.namespace.None? {
      FormatParseBare(p);
    } else {
      FormatParseNamespaced(p);
    }
  }

  /** The parser accepts exactly the urls of valid ingredient paths. */
  lemma ParseExactly(url: string, p: IngredientPath)
    ensures ParseIngredientPath(url) == Some(p) <==> p.Valid() && p.Format() == url
  {
    if p.Valid() && p.Format() == url {
      FormatParse(p);
    }
  }

  /**
   * Namespaced and bare pantries never share a key, and a key names one
   * pantry: equal keys mean equal namespace and pantry name.
   */
  lemma PantryKeyInjective(p: IngredientPath, q: IngredientPath)
    requires p.Valid() && q.Valid()
    requires p.PantryKey() == q.PantryKey()
    ensures p.namespace == q.namespace && p.pantry == q.pantry
  {
    match (p.namespace, q.namespace)
    case (None, None) =>
    case (Some(_), None) =>
    case (None, Some(_)) =>
    case (Some(m), Some(n)) =>
      assert p.PantryKey() == "@" + m + "/" + p.pantry;
      assert q.PantryKey() == "@" + n + "/" + q.pantry;
      assert '/' !in "@" + m;
      assert '/' !in "@" + n;
      SplitAtFirstSlash("@" + m, p.pantry, "@" + n, q.pantry);
      assert m == ("@" + m)[1..];
  }

  /** An ingredient: its directory and the file name of its Sass entry point, if it declares one. */
  datatype Ingredient = Ingredient(path: string, sassEntry: Option<string>)

  /** A pantry descriptor: its name, its root directory and its ingredient table. */
  datatype Pantry = Pantry(name: string, path: string, ingredients: map<string, Ingredient>)
}

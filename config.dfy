/** The rewrite update_config applies to the parsed configuration document:
    ensure masquerade.proxy exists and overwrite masquerade.proxy.url. */
module Config {
  import opened Wrappers
  import opened OrderedDict

  /** A document as yaml.safe_load returns it. A mapping keeps its keys in
      the order they were read, which yaml.safe_dump(sort_keys=False)
      writes back unchanged. */
  datatype Node =
    | Null
    | Bool(b: bool)
    | Int(i: int)
    | Str(s: string)
    | List(items: seq<Node>)
    | Mapping(entries: Entries<string, Node>)

  /** Why the rewrite fails before anything is written: the ValueError the
      source raises for a root that is not a mapping, and the errors Python
      raises when setdefault or item assignment meets a value that is not a dict. */
  datatype ConfigError = RootNotMapping | MasqueradeNotMapping | ProxyNotMapping

  const MASQUERADE: string := "masquerade"
  const PROXY: string := "proxy"
  const URL: string := "url"

  /** Python truthiness of a parsed value. */
  predicate Falsy(n: Node) {
    match n
    case Null => true
    case Bool(b) => !b
    case Int(i) => i == 0
    case Str(s) => s == ""
    case List(items) => items == []
    case Mapping(entries) => entries == []
  }

  /** `yaml.safe_load(file) or {}`: every false value becomes an empty mapping. */
  function Loaded(doc: Node): Node {
    if Falsy(doc) then Mapping([]) else doc
  }

  /** The entries of the mapping stored under k; none when k is absent or
      its value is not a mapping. */
  function Child(e: Entries<string, Node>, k: string): Entries<string, Node> {
    var v := Get(e, k);
    if v.Some? && v.value.Mapping? then v.value.entries else []
  }

  /** k is present and its value is not a mapping. */
  predicate HoldsNonMapping(e: Entries<string, Node>, k: string) {
    Get(e, k).Some? && !Get(e, k).value.Mapping?
  }

  /** The value reached by following the keys of path from n. */
  function PathGet(n: Node, path: seq<string>): Option<Node>
    decreases |path|
  {
    if path == [] then Some(n)
    else
      match n
      case Mapping(e) =>
        (match Get(e, path[0])
         case Some(c) => PathGet(c, path[1..])
         case None => None)
      case _ => None
  }

  /** The root's, masquerade's and proxy's entries differ only under
      masquerade, proxy and url respectively; a key that was missing is
      appended at the end of its mapping. */
  ghost predicate OnlyUrlPathChanged(before: Entries<string, Node>, after: Entries<string, Node>) {
    && ChangedOnlyAt(before, after, MASQUERADE)
    && ChangedOnlyAt(Child(before, MASQUERADE), Child(after, MASQUERADE), PROXY)
    && ChangedOnlyAt(Child(Child(before, MASQUERADE), PROXY), Child(Child(after, MASQUERADE), PROXY), URL)
  }

  /** The document has the shape the rewrite needs: a mapping at the root
      (after the empty-document default) whose masquerade and
      masquerade.proxy, where present, are mappings. */
  predicate Rewritable(doc: Node) {
    && Loaded(doc).Mapping?
    && !HoldsNonMapping(Loaded(doc).entries, MASQUERADE)
    && !HoldsNonMapping(Child(Loaded(doc).entries, MASQUERADE), PROXY)
  }

  /** The document update_config writes back, or the error it stops with. */
  function Rewrite(doc: Node, url: string): (r: Result<Node, ConfigError>)
    ensures r == Failure(RootNotMapping) <==> !Loaded(doc).Mapping?
    ensures r == Failure(MasqueradeNotMapping) <==>
      Loaded(doc).Mapping? && HoldsNonMapping(Loaded(doc).entries, MASQUERADE)
    ensures r == Failure(ProxyNotMapping) <==>
      && Loaded(doc).Mapping?
      && !HoldsNonMapping(Loaded(doc).entries, MASQUERADE)
      && HoldsNonMapping(Child(Loaded(doc).entries, MASQUERADE), PROXY)
    ensures r.Success? <==> Rewritable(doc)
    ensures r.Success? ==>
      && r.value.Mapping?
      && PathGet(r.value, [MASQUERADE, PROXY, URL]) == Some(Str(url))
      && OnlyUrlPathChanged(Loaded(doc).entries, r.value.entries)
    ensures Falsy(doc) ==>
      r == Success(Mapping([(MASQUERADE, Mapping([(PROXY, Mapping([(URL, Str(url))]))]))]))
  {
    var config := Loaded(doc);
    if !config.Mapping? then Failure(RootNotMapping)
    else
      var (top, masquerade) := SetDefault(config.entries, MASQUERADE, Mapping([]));
      if !masquerade.Mapping? then Failure(MasqueradeNotMapping)
      else
        var (masqueradeEntries, proxy) := SetDefault(masquerade.entries, PROXY, Mapping([]));
        if !proxy.Mapping? then Failure(ProxyNotMapping)
        else
          // The nested dicts are shared with the root, so the assignment
          // to proxy["url"] is visible from the root: rebuild both levels.
          var proxyEntries := SetItem(proxy.entries, URL, Str(url));
          var newMasquerade := SetItem(masqueradeEntries, PROXY, Mapping(proxyEntries));
          var after := SetItem(top, MASQUERADE, Mapping(newMasquerade));
          SetDefaultThenSetItem(config.entries, MASQUERADE, Mapping([]), Mapping(newMasquerade));
          SetDefaultThenSetItem(masquerade.entries, PROXY, Mapping([]), Mapping(proxyEntries));
          assert Child(after, MASQUERADE) == newMasquerade;
          assert Child(newMasquerade, PROXY) == proxyEntries;
          assert PathGet(Mapping(proxyEntries), [URL]) == Some(Str(url)) by {
            assert [URL][1..] == [];
          }
          assert PathGet(Mapping(newMasquerade), [PROXY, URL]) == Some(Str(url)) by {
            assert [PROXY, URL][1..] == [URL];
          }
          assert [MASQUERADE, PROXY, URL][1..] == [PROXY, URL];
          assert Falsy(doc) ==> after == [(MASQUERADE, Mapping([(PROXY, Mapping([(URL, Str(url))]))]))] by {
            if Falsy(doc) {
              assert config.entries == [] && !HasKey(config.entries, MASQUERADE);
              assert top == [(MASQUERADE, Mapping([]))] && masquerade == Mapping([]);
              assert !HasKey(masquerade.entries, PROXY);
              assert masqueradeEntries == [(PROXY, Mapping([]))] && proxy == Mapping([]);
              assert !HasKey(proxy.entries, URL);
              assert proxyEntries == [(URL, Str(url))];
              SetItemOnSingle(MASQUERADE, Mapping([]), Mapping(newMasquerade));
              SetItemOnSingle(PROXY, Mapping([]), Mapping(proxyEntries));
            }
          }
          Success(Mapping(after))
  }

  /** Rewriting an already rewritten document only replaces the url: the
      last run wins and nothing else accumulates. */
  lemma RewriteLastWins(doc: Node, first: string, second: string)
    requires Rewrite(doc, first).Success?
    ensures Rewrite(Rewrite(doc, first).value, second) == Rewrite(doc, second)
  {
    var e := Loaded(doc).entries;
    var (top, masquerade) := SetDefault(e, MASQUERADE, Mapping([]));
    var (masqueradeEntries, proxy) := SetDefault(masquerade.entries, PROXY, Mapping([]));
    var proxy1 := SetItem(proxy.entries, URL, Str(first));
    var masquerade1 := SetItem(masqueradeEntries, PROXY, Mapping(proxy1));
    var after1 := SetItem(top, MASQUERADE, Mapping(masquerade1));
    assert Rewrite(doc, first) == Success(Mapping(after1));
    assert HasKey(after1, MASQUERADE) && HasKey(masquerade1, PROXY);
    assert !Falsy(Mapping(after1));
    SetItemTwice(proxy.entries, URL, Str(first), Str(second));
    SetItemTwice(masqueradeEntries, PROXY, Mapping(proxy1), Mapping(SetItem(proxy.entries, URL, Str(second))));
    SetItemTwice(top, MASQUERADE, Mapping(masquerade1),
      Mapping(SetItem(masqueradeEntries, PROXY, Mapping(SetItem(proxy.entries, URL, Str(second))))));
  }

  /** A document whose three mappings on the url path have unique keys
      keeps them unique. */
  lemma RewriteKeepsKeysUnique(doc: Node, url: string)
    requires Rewrite(doc, url).Success?
    requires UniqueKeys(Loaded(doc).entries)
    requires UniqueKeys(Child(Loaded(doc).entries, MASQUERADE))
    requires UniqueKeys(Child(Child(Loaded(doc).entries, MASQUERADE), PROXY))
    ensures UniqueKeys(Rewrite(doc, url).value.entries)
    ensures UniqueKeys(Child(Rewrite(doc, url).value.entries, MASQUERADE))
    ensures UniqueKeys(Child(Child(Rewrite(doc, url).value.entries, MASQUERADE), PROXY))
  {
  }
}

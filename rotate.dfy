/** One run of the script: geolocate, select the pool, rewrite the
    configuration with a URL drawn from it, and restart the service. */
module Rotate {
  import opened Wrappers
  import opened Config
  import opened UrlPools
  import opened Service

  /** Why a run stops with exit status 1 before writing: random.choice on
      an empty pool, or a document the rewrite rejects. */
  datatype Abort = EmptyPool | Malformed(error: ConfigError)

  /** A run either writes the document and restarts with the given command,
      or aborts. */
  datatype Outcome =
    | Written(document: Node, url: string, restart: seq<string>)
    | Aborted(reason: Abort)

  /** update_config: pick a URL from the pool, rewrite the loaded document,
      write it back, and restart the service under the process's uid. */
  method UpdateConfig(pool: seq<string>, doc: Node, euid: nat) returns (outcome: Outcome)
    ensures outcome == Aborted(EmptyPool) <==> pool == []
    ensures pool != [] ==> (outcome.Written? <==> Rewritable(doc))
    ensures outcome.Written? ==>
      && outcome.url in pool
      && Rewrite(doc, outcome.url) == Success(outcome.document)
      && PathGet(outcome.document, [MASQUERADE, PROXY, URL]) == Some(Str(outcome.url))
      && outcome.document.Mapping?
      && OnlyUrlPathChanged(Loaded(doc).entries, outcome.document.entries)
      && outcome.restart == RestartCommand(euid)
    ensures outcome.Aborted? && outcome.reason.Malformed? ==>
      forall url :: Rewrite(doc, url) == Failure(outcome.reason.error)
  {
    var selected := ChooseUrl(pool);
    if selected.None? {
      return Aborted(EmptyPool);
    }
    var url := selected.value;
    var result := Rewrite(doc, url);
    if result.Failure? {
      return Aborted(Malformed(result.error));
    }
    outcome := Written(result.value, url, RestartCommand(euid));
  }

  /** The script's main block: the country code from the lookup reply
      (None when it failed), the pool for it, then update_config. */
  method Run(reply: Option<map<string, string>>, doc: Node, euid: nat) returns (outcome: Outcome)
    ensures outcome != Aborted(EmptyPool)
    ensures outcome.Written? <==> Rewritable(doc)
    ensures outcome.Written? ==>
      && outcome.url in SelectPool(CountryCode(reply))
      && Rewrite(doc, outcome.url) == Success(outcome.document)
      && PathGet(outcome.document, [MASQUERADE, PROXY, URL]) == Some(Str(outcome.url))
      && outcome.document.Mapping?
      && OnlyUrlPathChanged(Loaded(doc).entries, outcome.document.entries)
      && outcome.restart == RestartCommand(euid)
    ensures outcome.Aborted? ==>
      && outcome.reason.Malformed?
      && forall url :: Rewrite(doc, url) == Failure(outcome.reason.error)
  {
    var pool := SelectPool(CountryCode(reply));
    outcome := UpdateConfig(pool, doc, euid);
  }
}

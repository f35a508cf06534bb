/** `getUserSyncs`: the exchange syncs users through one iframe only. */
module UserSync {
  import opened Js

  const SYNC_URL: string := "https://ssp.wp.pl/bidder/usersync"

  datatype SyncOptions = SyncOptions(iframeEnabled: JsValue)

  datatype Sync = Sync(kind: string, url: string)

  /** One iframe sync when iframe syncing is enabled, otherwise nothing
      (`undefined`, after a warning). */
  function GetUserSyncs(syncOptions: SyncOptions): (syncs: Option<seq<Sync>>)
    ensures syncs.Some? <==> Truthy(syncOptions.iframeEnabled)
    ensures syncs.Some? ==> |syncs.value| == 1 && syncs.value[0] == Sync("iframe", SYNC_URL)
  {
    if Truthy(syncOptions.iframeEnabled) then Some([Sync("iframe", SYNC_URL)]) else None
  }
}

/** How a call's options and the client's defaults combine (openfga.go). */
module Client {
  import opened Basics

  const NO_STORE := Error(Other("no store ID set; use WithStoreID or WithStore"), [])

  const DEFAULT_MAX_PARALLEL := 10

  /** storeFor: the call's store, else the client's, else an error. */
  function StoreFor(callStore: string, clientStore: string): Result<string> {
    var id := if callStore == "" then clientStore else callStore;
    if id == "" then Fail(NO_STORE) else Ok(id)
  }

  /** modelFor: the call's model, else the client's, possibly empty. */
  function ModelFor(callModel: string, clientModel: string): string {
    if callModel != "" then callModel else clientModel
  }
}

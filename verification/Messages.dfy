/** The messages between the popup and the worker (`state.rs`). */
module Messages {
  import opened Common
  import opened Symbolic
  import opened Model

  datatype UiLockState = UiLocked | WaitingForTouch | UiUnlocked(remaining: int)

  datatype DaemonEvent =
    | Show(secrets: seq<SecretMeta>, host: Option<string>, application: Option<string>)
    | Hide
    | LockChanged(state: UiLockState)
    | Error(message: string)
    | Status(message: string)
    | EditReady(meta: SecretMeta, payload: SecretPayload)
    | Refresh(secrets: seq<SecretMeta>)
    | RequestPin(retry: bool)

  datatype UiRequest =
    | UnlockRequest
    | Use(id: Uuid)
    | Dismissed
    | TouchRequest
    | BeginEdit(id: Uuid)
    | Save(meta: SecretMeta, payload: SecretPayload, isUpdate: bool)
    | DeleteRequest(id: Uuid)
    | PinResponse(pin: Option<string>)
}

/** The domain errors the modelled code can raise, with the payload each message is built from. */
module Errors {
  import opened Names

  datatype ResourceKind = Scene | AudioInput

  datatype ClaimField = AliasField | ShortcutField

  /** The settings the config check looks at, in the order it reports them. */
  datatype Setting =
    | Version
    | Host
    | Port
    | ConnectTimeout
    | RequestTimeout
    | RefreshInterval
    | MaxDelay
    | Multiplier
    | SocketPath
    | Password

  datatype Problem =
    | BadToken(reason: NameError)
    | BadAliasOrShortcut(kind: ResourceKind, reason: NameError)
    | DuplicateClaim(kind: ResourceKind, field: ClaimField, value: string)
    | BadResourceName(kind: ResourceKind, reason: NameError)
    | CollidesWithObsName(kind: ResourceKind, field: ClaimField, value: string)
    | BadSceneProfileName(reason: NameError)
    | BadHiddenScene(profile: string, reason: NameError)
    | DuplicateSceneProfile(name: string)
    | SceneProfileNotFound(target: string)
    | SceneProfileNameTaken(name: string)
    | BadSetting(setting: Setting)
    | NoConfigPath
    | UnreadableConfig

  datatype Error =
    | ConfigInvalid(problem: Problem)
    | ConfigNotFound
    | Io
    | SceneNotFound(target: string)
    | AudioInputNotFound(target: string)
    | AliasAmbiguous(target: string)
    | ListingInvalid(name: string)

  function NotFound(kind: ResourceKind, target: string): Error {
    match kind
    case Scene => SceneNotFound(target)
    case AudioInput => AudioInputNotFound(target)
  }
}

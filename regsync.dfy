/**
 * The regsync configuration the mirror generates: one credential entry per registry
 * login and one sync directive per (source image:tag, target image:tag) pair.
 */
module Regsync {
  /** One sync directive: copy `source` to `target`. */
  datatype ConfigSync = ConfigSync(source: string, target: string, syncType: string)

  /** A registry login. */
  datatype ConfigCred = ConfigCred(
    registry: string,
    user: string,
    pass: string,
    repoAuth: bool,
    reqConcurrent: int)

  datatype ConfigDefaults = ConfigDefaults(userAgent: string)

  datatype Config = Config(creds: seq<ConfigCred>, defaults: ConfigDefaults, sync: seq<ConfigSync>)

  /** The only directive type the mirror emits; regsync uses it for images and charts alike. */
  const ImageType := "image"
}

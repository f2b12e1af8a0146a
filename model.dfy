/** The profile → folder → secret tree. An optional string field that is absent is
    the empty string: both are falsy, and the core only ever tests them with `||` or `&&`. */
module Model {
  import opened Wrappers

  datatype Secret = Secret(
    id: string,
    name: string,
    value: string,
    tags: seq<string>,
    description: string,
    createdAt: string,
    updatedAt: string)

  datatype Folder = Folder(id: string, name: string, secrets: seq<Secret>)

  datatype Profile = Profile(
    id: string,
    name: string,
    folders: seq<Folder>,
    createdAt: string,
    updatedAt: string)

  /** The root document: every profile and the id of the current one. */
  datatype SecretsData = SecretsData(profiles: seq<Profile>, currentProfileId: string)

  /** What `addSecret` receives: a secret without `id`, `createdAt` and `updatedAt`. */
  datatype SecretInput = SecretInput(name: string, value: string, tags: seq<string>, description: string)

  /** A `Partial<Secret>` as the callers build it: the fields to overwrite. */
  datatype SecretPatch = SecretPatch(
    name: Option<string>,
    value: Option<string>,
    tags: Option<seq<string>>,
    description: Option<string>)
}

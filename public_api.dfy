/** The public package record handed to list callbacks (opkg_package_t) and
    the projection of an internal record onto it. */
module PublicApi {
  import opened Wrappers
  import opened Packages

  /** A descriptive field is either absent (NULL) or a copy of the string. */
  datatype PublicPackage = PublicPackage(
    name: Option<string>,
    version: Option<string>,
    architecture: Option<string>,
    description: Option<string>,
    tags: Option<string>,
    installed: int)

  /** opkg_package_new_with_values: every field copied as given and `installed`
      normalised to 0 or 1. */
  function PackageNewWithValues(name: Option<string>, version: Option<string>, arch: Option<string>,
                                desc: Option<string>, tags: Option<string>, installed: int): (p: PublicPackage)
    ensures p.installed == 0 || p.installed == 1
    ensures p.installed == 1 <==> installed != 0
    ensures p.name == name && p.version == version && p.architecture == arch
    ensures p.description == desc && p.tags == tags
  {
    PublicPackage(name, version, arch, desc, tags, if installed != 0 then 1 else 0)
  }

  /** The record opkg_list_packages builds for `p`: its descriptive fields, and
      `installed` set exactly when the record is INSTALLED. */
  function Project(p: Pkg): (q: PublicPackage)
    ensures q.name == Some(p.name) && q.version == p.version && q.architecture == p.architecture
    ensures q.description == p.description && q.tags == p.tags
    ensures q.installed == (if p.stateStatus == Installed then 1 else 0)
  {
    PackageNewWithValues(Some(p.name), p.version, p.architecture, p.description, p.tags,
                         if p.stateStatus == Installed then 1 else 0)
  }
}

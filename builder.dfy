/** The staging values the manifest handler fills in while it walks the
    document. Their definitions live in a builder module that is not part of
    this model; the shapes below are the ones the handler's code relies on:
    setters overwrite, `new` starts empty, and a resource is keyed by its
    identifier. */
module Builder {
  import opened Utils
  import opened TypeClassifier

  /** The course's general metadata; every field starts empty. */
  datatype General = General(title: string, description: string, copyright: string)

  const EMPTY_GENERAL: General := General("", "", "")

  /** An item inside a module, as far as the walk has seen it. */
  datatype ModuleItemBuilder = ModuleItemBuilder(title: string, identifierref: Option<string>)

  /** A module and the items opened inside it, in document order. */
  datatype ModuleBuilder = ModuleBuilder(title: string, items: seq<ModuleItemBuilder>)

  const EMPTY_MODULE: ModuleBuilder := ModuleBuilder("", [])

  /** A declared resource: its identifier, its optional location and the
      class of its `type` attribute. */
  datatype Resource = Resource(identifier: string, href: Option<string>, itemType: ItemType)

  /** Everything the walk accumulates. */
  datatype ManifestBuilder = ManifestBuilder(
    general: General,
    modules: seq<ModuleBuilder>,
    resourcesMap: map<string, Resource>)

  const EMPTY_MANIFEST: ManifestBuilder := ManifestBuilder(EMPTY_GENERAL, [], map[])

  /** Builds a resource from its element. The identifier is required: an
      element without one yields None, which the handler treats as fatal. An
      absent `type` is classified like the empty string. */
  function ResourceOf(node: Node): (r: Option<Resource>)
    ensures r.Some? <==> node.Find("identifier").Some?
    ensures r.Some? ==> r.value.identifier == node.Find("identifier").value && r.value.href == node.Find("href")
  {
    match node.Find("identifier")
    case None => None
    case Some(id) =>
      var raw := match node.Find("type") case Some(t) => t case None => "";
      Some(Resource(id, node.Find("href"), TypestrToType(raw)))
  }
}

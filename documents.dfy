/** The virtual-document collaborators of the router: a `.vue` file's
    container of virtual documents and the lookups in the `helpers` object.
    How the documents are built is not part of this model; every lookup is a
    function the host supplies. */
module Documents {
  import opened Wrappers

  type Path = string

  /** The selectors the router asks a container for: `'script'`,
      `'scriptSetup'` and `'_render'`. The `_module` document is kept apart,
      see `VueDocument`. */
  datatype Selector = Script | ScriptSetup | Render

  /** A virtual document, identified by its synthetic path. Two lookups that
      yield the same document yield equal values (the source compares them
      with `===`). */
  datatype VirtualDocument = VirtualDocument(fsPath: Path)

  /** A block of the `.vue` file (`<template>`, `<script>`, `<style>`, a
      custom block), with its `type` tag. */
  datatype Block = Block(blockType: string)

  /** The container of a `.vue` file's virtual documents.
      - `documents` answers `getDocument(selector)`; an absent key is an
        absent block;
      - `moduleDocument` is `getDocument('_module')`, which every container
        has (the source reads its `fsPath` without a check);
      - `blockAt` maps an offset of the `.vue` file to the block around it;
      - `documentFileName` is `getDocumentFileName(selector)`, the synthetic
        path of the document a selector stands for. */
  datatype VueDocument = VueDocument(
    fsPath: Path,
    documents: map<Selector, VirtualDocument>,
    moduleDocument: VirtualDocument,
    blockAt: int -> Option<Block>,
    documentFileName: Selector -> Path)
  {
    /** `getDocument(selector)`: the document of that block, if the block exists. */
    function GetDocument(selector: Selector): (r: Option<VirtualDocument>)
      ensures r.Some? <==> selector in documents
      ensures r.Some? ==> r.value == documents[selector]
    {
      if selector in documents then Some(documents[selector]) else None
    }
  }

  /** The lookups the router consumes:
      - `getVueDocument(fileName)`: the container of a `.vue` file or of one of
        its virtual files;
      - `getDocumentAt(fileName, position)`: the virtual document around an
        offset;
      - `isRenderFunctionDocument(document)`: the document is the compiled
        template (render function);
      - `isVirtualFile` and `isVueFile`: the path-classification predicates of
        the virtual-document library. */
  datatype Helpers = Helpers(
    getVueDocument: Path -> Option<VueDocument>,
    getDocumentAt: (Path, int) -> Option<VirtualDocument>,
    isRenderFunctionDocument: VirtualDocument -> bool,
    isVirtualFile: Path -> bool,
    isVueFile: Path -> bool)
}

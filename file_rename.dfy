/** `getEditsForFileRename` of the Vue language server: the edits the script
    service computes for the renamed file's `_module` document, followed by
    the template service's edits for the render document of every `.vue`
    file those edits touch, each render document at most once. */
module FileRename {
  import opened Wrappers
  import opened Features
  import opened Documents
  import opened Services
  import opened Strings
  import opened VueServer

  /** The render document a primary edit leads to: the edited file must be a
      virtual or a `.vue` file whose container has a `_render` document. */
  function RenderFor(s: VueLanguageServer, fileName: Path): (r: Option<VirtualDocument>)
    ensures r.Some? ==> (s.h.isVirtualFile(fileName) || s.h.isVueFile(fileName)) &&
                        s.h.getVueDocument(fileName).Some? &&
                        r == s.h.getVueDocument(fileName).value.GetDocument(Render)
    ensures ((s.h.isVirtualFile(fileName) || s.h.isVueFile(fileName)) && s.h.getVueDocument(fileName).Some? &&
             Render in s.h.getVueDocument(fileName).value.documents) ==> r.Some?
  {
    if s.h.isVirtualFile(fileName) || s.h.isVueFile(fileName) then
      match s.h.getVueDocument(fileName)
      case None => None
      case Some(document) => document.GetDocument(Render)
    else None
  }

  /** The render paths the cascade visits while walking `changes`, in order
      of first discovery; a path already visited is skipped. */
  function Discovered(s: VueLanguageServer, changes: seq<FileTextChanges>): (paths: seq<Path>)
    decreases |changes|
    ensures changes == [] ==> paths == []
  {
    if changes == [] then []
    else
      var visited := Discovered(s, changes[..|changes| - 1]);
      match RenderFor(s, changes[|changes| - 1].fileName)
      case None => visited
      case Some(render) => if render.fsPath in visited then visited else visited + [render.fsPath]
  }

  /** The template service's edits for each render path, concatenated in
      order. */
  function CascadeEdits(s: VueLanguageServer, renders: seq<Path>, oldFilePath: Path, newFilePath: Path): (r: seq<FileTextChanges>)
    decreases |renders|
    ensures renders == [] ==> r == []
    ensures |renders| == 1 ==> r == s.template.getEditsForFileRenameIn(renders[0], oldFilePath, newFilePath)
  {
    if renders == [] then []
    else CascadeEdits(s, renders[..|renders| - 1], oldFilePath, newFilePath) +
         s.template.getEditsForFileRenameIn(renders[|renders| - 1], oldFilePath, newFilePath)
  }

  /** The script service's edits for the `_module` document of the renamed
      file, moved to the path JavaScript's `replace(oldFilePath, newFilePath)`
      makes of it. */
  function PrimaryEdits(s: VueLanguageServer, document: VueDocument, oldFilePath: Path, newFilePath: Path): (r: seq<FileTextChanges>)
    ensures IndexOfFrom(document.moduleDocument.fsPath, oldFilePath, 0).None? ==>
              r == s.script.getEditsForFileRename(document.moduleDocument.fsPath, document.moduleDocument.fsPath)
  {
    var component := document.moduleDocument;
    s.script.getEditsForFileRename(component.fsPath, ReplaceFirstJs(component.fsPath, oldFilePath, newFilePath))
  }

  /** With a new path free of `$`, the `_module` document is moved under the
      new path literally: a module path `oldFilePath + rest` becomes
      `newFilePath + rest`. */
  lemma PrimaryEditsMoveModuleUnderNewPath(s: VueLanguageServer, document: VueDocument, oldFilePath: Path, newFilePath: Path, rest: string)
    requires forall k :: 0 <= k < |newFilePath| ==> newFilePath[k] != '$'
    requires document.moduleDocument.fsPath == oldFilePath + rest
    ensures PrimaryEdits(s, document, oldFilePath, newFilePath) ==
            s.script.getEditsForFileRename(oldFilePath + rest, newFilePath + rest)
  {
    ReplaceFirstJsWithoutDollar(oldFilePath + rest, oldFilePath, newFilePath);
    ReplacePrefix(oldFilePath, rest, newFilePath);
  }

  /** Each change leads to at most one render path. */
  lemma {:induction false} DiscoveredIsBounded(s: VueLanguageServer, changes: seq<FileTextChanges>)
    ensures |Discovered(s, changes)| <= |changes|
    decreases |changes|
  {
    if changes != [] {
      DiscoveredIsBounded(s, changes[..|changes| - 1]);
    }
  }

  /** No render path is visited twice. */
  lemma {:induction false} DiscoveredIsDistinct(s: VueLanguageServer, changes: seq<FileTextChanges>)
    ensures forall i, j :: 0 <= i < j < |Discovered(s, changes)| ==> Discovered(s, changes)[i] != Discovered(s, changes)[j]
    decreases |changes|
  {
    if changes != [] {
      DiscoveredIsDistinct(s, changes[..|changes| - 1]);
    }
  }

  /** Every visited render path is the render document of one of the
      changes. */
  lemma {:induction false} DiscoveredIsSound(s: VueLanguageServer, changes: seq<FileTextChanges>, p: Path)
    requires p in Discovered(s, changes)
    ensures exists k :: 0 <= k < |changes| && RenderFor(s, changes[k].fileName) == Some(VirtualDocument(p))
    decreases |changes|
  {
    var prefix := changes[..|changes| - 1];
    var last := |changes| - 1;
    if p in Discovered(s, prefix) {
      DiscoveredIsSound(s, prefix, p);
      var k :| 0 <= k < |prefix| && RenderFor(s, prefix[k].fileName) == Some(VirtualDocument(p));
      assert changes[k] == prefix[k];
    } else {
      assert RenderFor(s, changes[last].fileName) == Some(VirtualDocument(p));
    }
  }

  /** Every change that leads to a render document gets that document
      visited. */
  lemma {:induction false} DiscoveredIsComplete(s: VueLanguageServer, changes: seq<FileTextChanges>, k: nat)
    requires k < |changes| && RenderFor(s, changes[k].fileName).Some?
    ensures RenderFor(s, changes[k].fileName).value.fsPath in Discovered(s, changes)
    decreases |changes|
  {
    var prefix := changes[..|changes| - 1];
    if k < |changes| - 1 {
      assert prefix[k] == changes[k];
      DiscoveredIsComplete(s, prefix, k);
    }
  }

  /** Walking more changes only appends to what was visited: a path's place
      is fixed by the first change that leads to it. */
  lemma {:induction false} DiscoveredGrowsAtTheEnd(s: VueLanguageServer, changes: seq<FileTextChanges>, more: seq<FileTextChanges>)
    ensures Discovered(s, changes) <= Discovered(s, changes + more)
    decreases |more|
  {
    if more == [] {
      assert changes + more == changes;
    } else {
      var more' := more[..|more| - 1];
      assert (changes + more)[..|changes + more| - 1] == changes + more';
      DiscoveredGrowsAtTheEnd(s, changes, more');
    }
  }

  /** Further changes that only lead to render documents already visited add
      nothing, however many there are. */
  lemma {:induction false} RepeatedRendersAddNothing(s: VueLanguageServer, changes: seq<FileTextChanges>, more: seq<FileTextChanges>)
    requires forall k :: 0 <= k < |more| && RenderFor(s, more[k].fileName).Some? ==>
               RenderFor(s, more[k].fileName).value.fsPath in Discovered(s, changes)
    ensures Discovered(s, changes + more) == Discovered(s, changes)
    decreases |more|
  {
    if more == [] {
      assert changes + more == changes;
    } else {
      var more' := more[..|more| - 1];
      assert (changes + more)[..|changes + more| - 1] == changes + more';
      assert (changes + more)[|changes + more| - 1] == more[|more| - 1];
      forall k | 0 <= k < |more'| && RenderFor(s, more'[k].fileName).Some?
        ensures RenderFor(s, more'[k].fileName).value.fsPath in Discovered(s, changes)
      {
        assert more'[k] == more[k];
      }
      RepeatedRendersAddNothing(s, changes, more');
    }
  }

  /** One step of the walk: the change at index `i` adds its render path,
      and the template service's edits for it, exactly when it leads to a
      render document not yet visited. */
  lemma WalkStep(s: VueLanguageServer, changes: seq<FileTextChanges>, i: nat, visited: set<Path>,
                 oldFilePath: Path, newFilePath: Path)
    requires i < |changes|
    requires forall p :: p in visited <==> p in Discovered(s, changes[..i])
    ensures var render := RenderFor(s, changes[i].fileName);
            var found := Discovered(s, changes[..i]);
            if render.Some? && render.value.fsPath !in visited then
              Discovered(s, changes[..i + 1]) == found + [render.value.fsPath] &&
              CascadeEdits(s, found + [render.value.fsPath], oldFilePath, newFilePath) ==
              CascadeEdits(s, found, oldFilePath, newFilePath) +
              s.template.getEditsForFileRenameIn(render.value.fsPath, oldFilePath, newFilePath)
            else
              Discovered(s, changes[..i + 1]) == found
  {
    assert changes[..i + 1][..i] == changes[..i];
    var render := RenderFor(s, changes[i].fileName);
    if render.Some? && render.value.fsPath !in visited {
      var found := Discovered(s, changes[..i]);
      assert (found + [render.value.fsPath])[..|found|] == found;
    }
  }

  /** The `forEach` over the primary edits: each edit that leads to a render
      document not yet visited marks it visited and pushes the template
      service's edits for it onto `fileTextChanges`. */
  method PushCascadeEdits(s: VueLanguageServer, currentChanges: seq<FileTextChanges>, oldFilePath: Path, newFilePath: Path,
                          pushed: seq<FileTextChanges>)
    returns (fileTextChanges: seq<FileTextChanges>)
    ensures fileTextChanges == pushed + CascadeEdits(s, Discovered(s, currentChanges), oldFilePath, newFilePath)
  {
    fileTextChanges := pushed;
    var visited: set<Path> := {};
    ghost var found: seq<Path> := [];
    for i := 0 to |currentChanges|
      invariant found == Discovered(s, currentChanges[..i])
      invariant forall p :: p in visited <==> p in found
      invariant fileTextChanges == pushed + CascadeEdits(s, found, oldFilePath, newFilePath)
    {
      var item := currentChanges[i];
      WalkStep(s, currentChanges, i, visited, oldFilePath, newFilePath);
      var render := RenderFor(s, item.fileName);
      if render.Some? && render.value.fsPath !in visited {
        visited := visited + {render.value.fsPath};
        found := found + [render.value.fsPath];
        fileTextChanges := fileTextChanges +
          s.template.getEditsForFileRenameIn(render.value.fsPath, oldFilePath, newFilePath);
      }
    }
    assert currentChanges[..|currentChanges|] == currentChanges;
  }

  /** `getEditsForFileRename`: empty when renaming is off or `getVueDocument`
      finds no container for the old path; otherwise the script service's
      edits for the `_module` document, followed by the template service's
      edits for each render document those edits lead to, in order of
      discovery and each once. */
  method GetEditsForFileRename(s: VueLanguageServer, features: FeatureConfig, oldFilePath: Path, newFilePath: Path)
    returns (fileTextChanges: seq<FileTextChanges>)
    ensures !IsEnabled(features, "rename") ==> fileTextChanges == []
    ensures s.h.getVueDocument(oldFilePath).None? ==> fileTextChanges == []
    ensures IsEnabled(features, "rename") && s.h.getVueDocument(oldFilePath).Some? ==>
              var primary := PrimaryEdits(s, s.h.getVueDocument(oldFilePath).value, oldFilePath, newFilePath);
              fileTextChanges == primary + CascadeEdits(s, Discovered(s, primary), oldFilePath, newFilePath)
  {
    if !IsEnabled(features, "rename") {
      return [];
    }
    var document := s.h.getVueDocument(oldFilePath);
    fileTextChanges := [];
    if document.Some? {
      var component := document.value.moduleDocument;
      var currentChanges := s.script.getEditsForFileRename(
        component.fsPath, ReplaceFirstJs(component.fsPath, oldFilePath, newFilePath));
      fileTextChanges := fileTextChanges + currentChanges;
      fileTextChanges := PushCascadeEdits(s, currentChanges, oldFilePath, newFilePath, fileTextChanges);
    }
  }
}

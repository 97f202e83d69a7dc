/** The Vue language server: every language-service request addressed to a
    `.vue` file is checked against the feature configuration, resolved to
    one of the file's virtual documents and sent to the template service or
    the script service. */
module VueServer {
  import opened Wrappers
  import opened Features
  import opened Documents
  import opened Services

  /** The server built by `createVueLanguageServer`: the template service
      (built from the same options, not part of this model), the script
      service and the helpers of the options. */
  datatype VueLanguageServer = VueLanguageServer(template: LanguageService, script: LanguageService, h: Helpers)

  /** The two providers a virtual document can be routed to. */
  datatype ServiceKind = TemplateService | ScriptService

  /** The routing decision of `choose`: the compiled template goes to the
      template service, every other document to the script service. */
  function Route(s: VueLanguageServer, document: VirtualDocument): (k: ServiceKind)
    ensures k == TemplateService <==> s.h.isRenderFunctionDocument(document)
    ensures k == ScriptService <==> !s.h.isRenderFunctionDocument(document)
  {
    if s.h.isRenderFunctionDocument(document) then TemplateService else ScriptService
  }

  /** The service a provider kind stands for. */
  function Provider(s: VueLanguageServer, k: ServiceKind): LanguageService {
    match k
    case TemplateService => s.template
    case ScriptService => s.script
  }

  /** `choose(document)`: the service that owns the document. */
  function Choose(s: VueLanguageServer, document: VirtualDocument): (service: LanguageService)
    ensures s.h.isRenderFunctionDocument(document) ==> service == s.template
    ensures !s.h.isRenderFunctionDocument(document) ==> service == s.script
  {
    Provider(s, Route(s, document))
  }

  // ---------------------------------------------------------------------
  // Diagnostics

  /** The `diagnostics` feature lists the categories it reports. */
  predicate DiagnosticsEnabled(features: FeatureConfig, kind: DiagnosticKind) {
    IsFeatureEnabled(features, "diagnostics", Str(kind.OptionName()))
  }

  /** What one block contributes: the routed service's diagnostics for its
      document, or nothing when the block is absent. */
  function BlockDiagnostics(s: VueLanguageServer, kind: DiagnosticKind, document: VueDocument, selector: Selector): (r: seq<Diagnostic>)
    ensures selector !in document.documents ==> r == []
  {
    match document.GetDocument(selector)
    case None => []
    case Some(virtual) => Choose(s, virtual).Diagnostics(kind, virtual.fsPath)
  }

  /** The contributions of `selectors`, concatenated in selector order. */
  function CollectDiagnostics(s: VueLanguageServer, kind: DiagnosticKind, document: VueDocument, selectors: seq<Selector>): (r: seq<Diagnostic>)
    ensures selectors == [] ==> r == []
    ensures |selectors| == 1 ==> r == BlockDiagnostics(s, kind, document, selectors[0])
  {
    if selectors == [] then []
    else CollectDiagnostics(s, kind, document, selectors[..|selectors| - 1]) +
         BlockDiagnostics(s, kind, document, selectors[|selectors| - 1])
  }

  /** Collecting over consecutive selector lists concatenates their results:
      the output order is the selector order and nothing is interleaved. */
  lemma {:induction false} CollectDiagnosticsAppend(s: VueLanguageServer, kind: DiagnosticKind, document: VueDocument, a: seq<Selector>, b: seq<Selector>)
    ensures CollectDiagnostics(s, kind, document, a + b) ==
            CollectDiagnostics(s, kind, document, a) + CollectDiagnostics(s, kind, document, b)
    decreases |b|
  {
    if b == [] {
      assert a + b == a;
    } else {
      var b' := b[..|b| - 1];
      assert (a + b)[..|a + b| - 1] == a + b';
      assert (a + b)[|a + b| - 1] == b[|b| - 1];
      CollectDiagnosticsAppend(s, kind, document, a, b');
    }
  }

  /** Selectors whose block is absent contribute nothing. */
  lemma {:induction false} CollectDiagnosticsAbsent(s: VueLanguageServer, kind: DiagnosticKind, document: VueDocument, selectors: seq<Selector>)
    requires forall k :: 0 <= k < |selectors| ==> selectors[k] !in document.documents
    ensures CollectDiagnostics(s, kind, document, selectors) == []
    decreases |selectors|
  {
    if selectors != [] {
      CollectDiagnosticsAbsent(s, kind, document, selectors[..|selectors| - 1]);
    }
  }

  /** One step of the loop: the block at index `i` appends its
      contribution. */
  lemma CollectDiagnosticsStep(s: VueLanguageServer, kind: DiagnosticKind, document: VueDocument, selectors: seq<Selector>, i: nat)
    requires i < |selectors|
    ensures CollectDiagnostics(s, kind, document, selectors[..i + 1]) ==
            CollectDiagnostics(s, kind, document, selectors[..i]) + BlockDiagnostics(s, kind, document, selectors[i])
  {
    assert selectors[..i + 1][..i] == selectors[..i];
  }

  /** `getSemanticDiagnostics`, `getSuggestionDiagnostics` and
      `getSyntacticDiagnostics`: empty when the category is not enabled or
      `getVueDocument` finds no container for the file; otherwise the `script` document's
      diagnostics followed by the `_render` document's, each from the
      service that owns it. */
  method GetDiagnostics(s: VueLanguageServer, features: FeatureConfig, kind: DiagnosticKind, fileName: Path)
    returns (diagnostics: seq<Diagnostic>)
    ensures !DiagnosticsEnabled(features, kind) ==> diagnostics == []
    ensures s.h.getVueDocument(fileName).None? ==> diagnostics == []
    ensures DiagnosticsEnabled(features, kind) && s.h.getVueDocument(fileName).Some? ==>
              diagnostics == BlockDiagnostics(s, kind, s.h.getVueDocument(fileName).value, Script) +
                             BlockDiagnostics(s, kind, s.h.getVueDocument(fileName).value, Render)
  {
    if !DiagnosticsEnabled(features, kind) {
      return [];
    }
    var document := s.h.getVueDocument(fileName);
    diagnostics := [];
    if document.Some? {
      var selectors := [Script, Render];
      for i := 0 to |selectors|
        invariant diagnostics == CollectDiagnostics(s, kind, document.value, selectors[..i])
      {
        CollectDiagnosticsStep(s, kind, document.value, selectors, i);
        var virtual := document.value.GetDocument(selectors[i]);
        if virtual.Some? {
          var results := Choose(s, virtual.value).Diagnostics(kind, virtual.value.fsPath);
          diagnostics := diagnostics + results;
        }
      }
      assert selectors[..|selectors|] == [Script] + [Render];
      CollectDiagnosticsAppend(s, kind, document.value, [Script], [Render]);
    }
  }

  // ---------------------------------------------------------------------
  // Organize imports

  /** The document `organizeImports` works on: `script`, or `scriptSetup`
      when there is no `script` block. */
  function ImportsDocument(document: VueDocument): (r: Option<VirtualDocument>)
    ensures Script in document.documents ==> r == Some(document.documents[Script])
    ensures Script !in document.documents && ScriptSetup in document.documents ==> r == Some(document.documents[ScriptSetup])
    ensures r.None? <==> Script !in document.documents && ScriptSetup !in document.documents
  {
    if document.GetDocument(Script).Some? then document.GetDocument(Script) else document.GetDocument(ScriptSetup)
  }

  /** `organizeImports`: always the script service, on the script document;
      empty when the feature is off, `getVueDocument` finds no container for
      the file or it has neither script block. */
  function OrganizeImports(s: VueLanguageServer, features: FeatureConfig, fileName: Path): (r: seq<FileTextChanges>)
    ensures !IsEnabled(features, "organizeImports") ==> r == []
    ensures s.h.getVueDocument(fileName).None? ==> r == []
    ensures IsEnabled(features, "organizeImports") && s.h.getVueDocument(fileName).Some? ==>
              var document := s.h.getVueDocument(fileName).value;
              (Script in document.documents ==> r == s.script.organizeImports(document.documents[Script].fsPath)) &&
              (Script !in document.documents && ScriptSetup in document.documents ==>
                 r == s.script.organizeImports(document.documents[ScriptSetup].fsPath)) &&
              (Script !in document.documents && ScriptSetup !in document.documents ==> r == [])
  {
    if !IsEnabled(features, "organizeImports") then []
    else match s.h.getVueDocument(fileName)
      case None => []
      case Some(document) =>
        match ImportsDocument(document)
        case None => []
        case Some(virtual) => s.script.organizeImports(virtual.fsPath)
  }

  /** Organizing imports never depends on the template service or on the
      routing predicate. */
  lemma OrganizeImportsIgnoresTemplate(s: VueLanguageServer, template: LanguageService, isRender: VirtualDocument -> bool,
                                       features: FeatureConfig, fileName: Path)
    ensures OrganizeImports(s.(template := template, h := s.h.(isRenderFunctionDocument := isRender)), features, fileName) ==
            OrganizeImports(s, features, fileName)
  {
  }

  // ---------------------------------------------------------------------
  // Point requests: quick info, rename info, definitions

  /** `getQuickInfoAtPosition`: the routed service's answer for the document
      at the position; `undefined` when the feature is off or no document is
      there. */
  function GetQuickInfoAtPosition(s: VueLanguageServer, features: FeatureConfig, fileName: Path, position: int): (r: Option<QuickInfo>)
    ensures !IsEnabled(features, "quickInfo") ==> r == None
    ensures s.h.getDocumentAt(fileName, position).None? ==> r == None
    ensures IsEnabled(features, "quickInfo") && s.h.getDocumentAt(fileName, position).Some? ==>
              var document := s.h.getDocumentAt(fileName, position).value;
              r == Choose(s, document).getQuickInfoAtPosition(document.fsPath, position)
  {
    if !IsEnabled(features, "quickInfo") then None
    else match s.h.getDocumentAt(fileName, position)
      case None => None
      case Some(document) => Choose(s, document).getQuickInfoAtPosition(document.fsPath, position)
  }

  const RenameDisabledMessage := "Rename feature disabled."
  const CannotFindMessage := "Cannot find this Vue file."

  /** `getRenameInfo`: a refusal with its reason when the feature is off or
      no document is at the position, the routed service's answer
      otherwise. */
  function GetRenameInfo(s: VueLanguageServer, features: FeatureConfig, fileName: Path, position: int): (r: RenameInfo)
    ensures !IsEnabled(features, "rename") ==> r == RenameInfoFailure(RenameDisabledMessage)
    ensures IsEnabled(features, "rename") && s.h.getDocumentAt(fileName, position).None? ==>
              r == RenameInfoFailure(CannotFindMessage)
    ensures IsEnabled(features, "rename") && s.h.getDocumentAt(fileName, position).Some? ==>
              var document := s.h.getDocumentAt(fileName, position).value;
              r == Choose(s, document).getRenameInfo(document.fsPath, position)
  {
    if !IsEnabled(features, "rename") then RenameInfoFailure(RenameDisabledMessage)
    else match s.h.getDocumentAt(fileName, position)
      case None => RenameInfoFailure(CannotFindMessage)
      case Some(document) => Choose(s, document).getRenameInfo(document.fsPath, position)
  }

  /** The router's own refusals consult no service: with renaming off, or
      with no document at the position, the answer is the same whatever the
      template and script services are. */
  lemma RenameRefusalsIgnoreServices(s: VueLanguageServer, template: LanguageService, script: LanguageService,
                                     features: FeatureConfig, fileName: Path, position: int)
    requires !IsEnabled(features, "rename") || s.h.getDocumentAt(fileName, position).None?
    ensures GetRenameInfo(s.(template := template, script := script), features, fileName, position) ==
            GetRenameInfo(s, features, fileName, position)
    ensures GetRenameInfo(s, features, fileName, position).RenameInfoFailure?
  {
  }

  /** `getDefinitionAndBoundSpan`: not behind any feature; the routed
      service's answer when a document is at the position, `undefined`
      otherwise. */
  function GetDefinitionAndBoundSpan(s: VueLanguageServer, fileName: Path, position: int): (r: Option<DefinitionInfo>)
    ensures s.h.getDocumentAt(fileName, position).None? ==> r == None
    ensures s.h.getDocumentAt(fileName, position).Some? ==>
              var document := s.h.getDocumentAt(fileName, position).value;
              r == Choose(s, document).getDefinitionAndBoundSpan(document.fsPath, position)
  {
    match s.h.getDocumentAt(fileName, position)
    case None => None
    case Some(document) => Choose(s, document).getDefinitionAndBoundSpan(document.fsPath, position)
  }

  // ---------------------------------------------------------------------
  // Find rename locations

  /** `findRenameLocations`: `[]` when renaming is off; `undefined` when
      `getVueDocument` finds no container for the file or no block is at the
      position; inside the
      template only the template service's locations in `_render`, inside
      the script only the script service's locations in `script`, and `[]`
      in any other block. */
  method FindRenameLocations(s: VueLanguageServer, features: FeatureConfig, fileName: Path, position: int,
                             findInStrings: bool, findInComments: bool)
    returns (result: Option<seq<RenameLocation>>)
    ensures !IsEnabled(features, "rename") ==> result == Some([])
    ensures IsEnabled(features, "rename") && s.h.getVueDocument(fileName).None? ==> result == None
    ensures IsEnabled(features, "rename") && s.h.getVueDocument(fileName).Some? ==>
              var document := s.h.getVueDocument(fileName).value;
              var block := document.blockAt(position);
              (block.None? ==> result == None) &&
              (block.Some? && block.value.blockType == "template" ==>
                 result == Some(s.template.findRenameLocations(document.documentFileName(Render), position,
                                                              findInStrings, findInComments).GetOr([]))) &&
              (block.Some? && block.value.blockType == "script" ==>
                 result == Some(s.script.findRenameLocations(document.documentFileName(Script), position,
                                                            findInStrings, findInComments).GetOr([]))) &&
              (block.Some? && block.value.blockType != "template" && block.value.blockType != "script" ==>
                 result == Some([]))
  {
    if !IsEnabled(features, "rename") {
      return Some([]);
    }
    var document := s.h.getVueDocument(fileName);
    if document.None? {
      return None;
    }
    var block := document.value.blockAt(position);
    if block.None? {
      return None;
    }
    var locations: seq<RenameLocation> := [];
    if block.value.blockType == "template" {
      var fromTemplate := s.template.findRenameLocations(document.value.documentFileName(Render), position,
                                                         findInStrings, findInComments);
      if fromTemplate.Some? {
        locations := locations + fromTemplate.value;
      }
      assert locations == fromTemplate.GetOr([]);
    }
    if block.value.blockType == "script" {
      var fromScript := s.script.findRenameLocations(document.value.documentFileName(Script), position,
                                                     findInStrings, findInComments);
      if fromScript.Some? {
        locations := locations + fromScript.value;
      }
      assert locations == fromScript.GetOr([]);
    }
    result := Some(locations);
  }

  // ---------------------------------------------------------------------
  // Refactors

  /** The document both ends of a position or range resolve to, when they
      resolve to the same one. Only the two ends are looked at: positions
      between them are not checked. */
  function CoherentDocument(s: VueLanguageServer, fileName: Path, positionOrRange: PositionOrRange): (r: Option<VirtualDocument>)
    ensures r.Some? <==> s.h.getDocumentAt(fileName, positionOrRange.Start()).Some? &&
                         s.h.getDocumentAt(fileName, positionOrRange.Start()) == s.h.getDocumentAt(fileName, positionOrRange.End())
    ensures r.Some? ==> r == s.h.getDocumentAt(fileName, positionOrRange.Start()) &&
                        r == s.h.getDocumentAt(fileName, positionOrRange.End())
  {
    var document := s.h.getDocumentAt(fileName, positionOrRange.Start());
    var document2 := s.h.getDocumentAt(fileName, positionOrRange.End());
    if document.Some? && document == document2 then document else None
  }

  /** A bare position is always coherent: it resolves like a point request. */
  lemma PositionIsCoherent(s: VueLanguageServer, fileName: Path, position: int)
    ensures CoherentDocument(s, fileName, Position(position)) == s.h.getDocumentAt(fileName, position)
  {
  }

  /** `getApplicableRefactors`: the routed service's refactors for the
      document both ends of the range resolve to; `[]` when the feature is
      off or the two ends do not resolve to the same document (positions
      between them are not checked). */
  function GetApplicableRefactors(s: VueLanguageServer, features: FeatureConfig, fileName: Path,
                                  positionOrRange: PositionOrRange): (r: seq<RefactorInfo>)
    ensures !IsEnabled(features, "refactor") ==> r == []
    ensures CoherentDocument(s, fileName, positionOrRange).None? ==> r == []
    ensures IsEnabled(features, "refactor") && CoherentDocument(s, fileName, positionOrRange).Some? ==>
              var document := CoherentDocument(s, fileName, positionOrRange).value;
              r == Choose(s, document).getApplicableRefactors(document.fsPath, positionOrRange)
  {
    if !IsEnabled(features, "refactor") then []
    else match CoherentDocument(s, fileName, positionOrRange)
      case None => []
      case Some(document) => Choose(s, document).getApplicableRefactors(document.fsPath, positionOrRange)
  }

  /** `getEditsForRefactor`: the routed service's edits for the document
      both ends of the range resolve to; `undefined` when the feature is off
      or the two ends do not resolve to the same document (positions between
      them are not checked). */
  function GetEditsForRefactor(s: VueLanguageServer, features: FeatureConfig, fileName: Path,
                               positionOrRange: PositionOrRange, refactorName: string, actionName: string)
    : (r: Option<RefactorEditInfo>)
    ensures !IsEnabled(features, "refactor") ==> r == None
    ensures CoherentDocument(s, fileName, positionOrRange).None? ==> r == None
    ensures IsEnabled(features, "refactor") && CoherentDocument(s, fileName, positionOrRange).Some? ==>
              var document := CoherentDocument(s, fileName, positionOrRange).value;
              r == Choose(s, document).getEditsForRefactor(document.fsPath, positionOrRange, refactorName, actionName)
  {
    if !IsEnabled(features, "refactor") then None
    else match CoherentDocument(s, fileName, positionOrRange)
      case None => None
      case Some(document) =>
        Choose(s, document).getEditsForRefactor(document.fsPath, positionOrRange, refactorName, actionName)
  }

  /** A range whose ends lie in different documents (say, one in the script
      and one in the template) gets no refactor at all. */
  lemma StraddlingRangeHasNoRefactors(s: VueLanguageServer, features: FeatureConfig, fileName: Path, pos: int, end: int,
                                      refactorName: string, actionName: string)
    requires s.h.getDocumentAt(fileName, pos) != s.h.getDocumentAt(fileName, end)
    ensures GetApplicableRefactors(s, features, fileName, TextRange(pos, end)) == []
    ensures GetEditsForRefactor(s, features, fileName, TextRange(pos, end), refactorName, actionName) == None
  {
  }
}

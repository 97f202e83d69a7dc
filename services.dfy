/** The language services the router delegates to, and the shapes of what
    they return. The services are opaque: each capability is a function from
    the request (addressed to a virtual document's path) to its result. */
module Services {
  import opened Wrappers
  import opened Documents

  datatype Diagnostic = Diagnostic(file: Path, start: int, length: int, messageText: string)
  datatype TextChange = TextChange(start: int, length: int, newText: string)
  datatype FileTextChanges = FileTextChanges(fileName: Path, textChanges: seq<TextChange>)
  datatype RenameLocation = RenameLocation(fileName: Path, start: int, length: int)
  datatype QuickInfo = QuickInfo(kind: string, start: int, length: int)
  datatype DefinitionInfo = DefinitionInfo(fileName: Path, start: int, length: int)
  datatype RefactorInfo = RefactorInfo(name: string, description: string)
  datatype RefactorEditInfo = RefactorEditInfo(edits: seq<FileTextChanges>)

  /** `canRename: true` with what is renamed, or `canRename: false` with the
      reason. */
  datatype RenameInfo = RenameInfoSuccess(displayName: string) | RenameInfoFailure(localizedErrorMessage: string)

  /** The `positionOrRange` argument of the refactor requests: a bare number
      or a `{pos, end}` range. */
  datatype PositionOrRange = Position(position: int) | TextRange(pos: int, end: int)
  {
    /** `isNumber(x) ? x : x.pos` */
    function Start(): int {
      if Position? then position else pos
    }
    /** `isNumber(x) ? x : x.end` */
    function End(): int {
      if Position? then position else end
    }
  }

  /** The diagnostics categories, with the option names of the
      `diagnostics` feature. */
  datatype DiagnosticKind = Semantic | Suggestion | Syntactic
  {
    function OptionName(): string {
      match this
      case Semantic => "semantic"
      case Suggestion => "suggestion"
      case Syntactic => "syntactic"
    }
  }

  /** The capabilities both the template service and the script service
      offer. Formatting options, user preferences and rename options are
      passed through unchanged by the router and are left out. */
  datatype LanguageService = LanguageService(
    getSemanticDiagnostics: Path -> seq<Diagnostic>,
    getSuggestionDiagnostics: Path -> seq<Diagnostic>,
    getSyntacticDiagnostics: Path -> seq<Diagnostic>,
    organizeImports: Path -> seq<FileTextChanges>,
    getQuickInfoAtPosition: (Path, int) -> Option<QuickInfo>,
    getRenameInfo: (Path, int) -> RenameInfo,
    findRenameLocations: (Path, int, bool, bool) -> Option<seq<RenameLocation>>,
    getEditsForFileRename: (Path, Path) -> seq<FileTextChanges>,
    getEditsForFileRenameIn: (Path, Path, Path) -> seq<FileTextChanges>,
    getApplicableRefactors: (Path, PositionOrRange) -> seq<RefactorInfo>,
    getEditsForRefactor: (Path, PositionOrRange, string, string) -> Option<RefactorEditInfo>,
    getDefinitionAndBoundSpan: (Path, int) -> Option<DefinitionInfo>)
  {
    /** The diagnostics capability of one category. */
    function Diagnostics(kind: DiagnosticKind, fileName: Path): seq<Diagnostic> {
      match kind
      case Semantic => getSemanticDiagnostics(fileName)
      case Suggestion => getSuggestionDiagnostics(fileName)
      case Syntactic => getSyntacticDiagnostics(fileName)
    }
  }
}

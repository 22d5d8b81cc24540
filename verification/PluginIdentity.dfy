/** The one catalogue id that saved and legacy plugin ids stand for. */
module PluginIdentity {

  import opened Text

  const WEB := "web-search-fetch"

  /** What a renamed id is called now; other ids are as they were. */
  function Renamed(id: string): string {
    if id == "studio" || id == "artifacts" then "artifact"
    else if id == "markdown" || id == "note-authoring" then "page-authoring"
    else if id == "tables" then "sheet-authoring"
    else if id == "collaboration" || id == "subagent" then "subsession"
    else if id == "web" then WEB
    else id
  }

  function CurrentPluginID(saved: string): string {
    Renamed(Trim(saved))
  }

  predicate IsCurrent(id: string) {
    CurrentPluginID(id) == id
  }

  lemma ArtifactStays()
    ensures Renamed("artifact") == "artifact" && Trimmed("artifact")
  {
  }

  lemma AuthoringStays()
    ensures Renamed("page-authoring") == "page-authoring" && Trimmed("page-authoring")
    ensures Renamed("sheet-authoring") == "sheet-authoring" && Trimmed("sheet-authoring")
  {
  }

  lemma SubsessionStays()
    ensures Renamed("subsession") == "subsession" && Trimmed("subsession")
    ensures Renamed("subagent") == "subsession" && Trimmed("subagent")
  {
  }

  lemma WebStays()
    ensures Renamed(WEB) == WEB && Trimmed(WEB) && Renamed("web") == WEB && Trimmed("web")
  {
  }

  /** An id that was renamed gets a name that will not be renamed again. */
  lemma CurrentIsIdempotent(id: string)
    ensures IsCurrent(CurrentPluginID(id))
  {
    hide Renamed, Trim, Trimmed;
    TrimIsTrimmed(id);
    TrimIsTrimmed(CurrentPluginID(id));
    RenamedOnce(Trim(id));
  }

  lemma RenamedOnce(id: string)
    ensures Renamed(Renamed(id)) == Renamed(id)
    ensures Trimmed(id) ==> Trimmed(Renamed(id))
  {
    ArtifactStays();
    AuthoringStays();
    SubsessionStays();
    WebStays();
  }

  /** The canonical ids and two of the aliases. */
  lemma KnownIds()
    ensures CurrentPluginID("web") == WEB && IsCurrent(WEB)
    ensures CurrentPluginID("subagent") == "subsession" && IsCurrent("subsession")
    ensures IsCurrent("artifact") && IsCurrent("page-authoring") && IsCurrent("sheet-authoring")
  {
    hide Renamed, Trim, Trimmed;
    ArtifactStays();
    AuthoringStays();
    SubsessionStays();
    WebStays();
    TrimIsTrimmed("web");
    TrimIsTrimmed(WEB);
    TrimIsTrimmed("subagent");
    TrimIsTrimmed("subsession");
    TrimIsTrimmed("artifact");
    TrimIsTrimmed("page-authoring");
    TrimIsTrimmed("sheet-authoring");
  }

  /** The names plugins had before, with or without blanks around them. */
  lemma OldNamesAreRead(saved: string)
    ensures Trim(saved) in {"studio", "artifacts", "artifact"} ==> CurrentPluginID(saved) == "artifact"
    ensures Trim(saved) in {"markdown", "note-authoring", "page-authoring"} ==> CurrentPluginID(saved) == "page-authoring"
    ensures Trim(saved) in {"tables", "sheet-authoring"} ==> CurrentPluginID(saved) == "sheet-authoring"
    ensures Trim(saved) in {"collaboration", "subagent", "subsession"} ==> CurrentPluginID(saved) == "subsession"
    ensures Trim(saved) in {"web", "web-search-fetch"} ==> CurrentPluginID(saved) == "web-search-fetch"
  {
    hide Trim;
    ArtifactStays();
    AuthoringStays();
    SubsessionStays();
    WebStays();
  }
}

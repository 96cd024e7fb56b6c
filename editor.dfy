/** The code-editor page's session controller: the language catalog, the
    three text buffers, the preview document composed from the markup and
    stylesheet buffers, the selected language, theme and result tab, and the
    run lifecycle against the execution endpoint. */
module EditorSession {
  import opened Wrappers
  import Text

  // ---------------------------------------------------------------------
  // Language catalog
  // ---------------------------------------------------------------------

  /** One entry of the language selector: the identifier sent to the
      execution service, the label shown in the selector, and the script
      the buffer is reseeded with when the language is picked. */
  datatype LanguageOption = LanguageOption(value: string, displayName: string, seed: string)

  const PythonSeed: string :=
    "# Python code\nprint(\"Hello from Python!\")\n\n# You can define functions\ndef greet(name):\n    return f\"Hello, {name}!\"\n\n# Output example\nprint(greet(\"User\"))"

  const JavaScriptSeed: string :=
    "// JavaScript code\nconsole.log(\"Hello from JavaScript!\");\n\n// You can define functions\nfunction greet(name) {\n  return `Hello, ${name}!`;\n}\n\n// Output example\nconsole.log(greet(\"User\"));"

  const RubySeed: string :=
    "# Ruby code\nputs \"Hello from Ruby!\"\n\n# You can define functions\ndef greet(name)\n  \"Hello, #{name}!\"\nend\n\n# Output example\nputs greet(\"User\")"

  const Catalog: seq<LanguageOption> := [
    LanguageOption("python", "Python", PythonSeed),
    LanguageOption("javascript", "JavaScript", JavaScriptSeed),
    LanguageOption("ruby", "Ruby", RubySeed)
  ]

  predicate DistinctValues(options: seq<LanguageOption>) {
    forall i, j :: 0 <= i < j < |options| ==> options[i].value != options[j].value
  }

  /** `options.find(option => option.value === value)`. */
  function Find(options: seq<LanguageOption>, value: string): (r: Option<LanguageOption>)
    ensures r.Some? ==> r.value in options && r.value.value == value
    ensures r.None? <==> forall o :: o in options ==> o.value != value
  {
    if options == [] then None
    else if options[0].value == value then Some(options[0])
    else Find(options[1..], value)
  }

  /** When identifiers are distinct, `find` returns exactly the option that
      carries the identifier. */
  lemma {:induction false} FindExact(options: seq<LanguageOption>, o: LanguageOption)
    requires DistinctValues(options)
    requires o in options
    ensures Find(options, o.value) == Some(o)
  {
    if options[0] != o {
      var j :| 0 <= j < |options| && options[j] == o;
      assert options[1..][j - 1] == o;
      FindExact(options[1..], o);
    }
  }

  /** The catalog has exactly the three languages, under distinct
      identifiers, so a lookup in it is unambiguous. */
  lemma CatalogLookup(value: string)
    ensures |Catalog| == 3 && DistinctValues(Catalog)
    ensures Find(Catalog, value).Some? <==> value in {"python", "javascript", "ruby"}
    ensures value == "python" ==> Find(Catalog, value) == Some(Catalog[0])
    ensures value == "javascript" ==> Find(Catalog, value) == Some(Catalog[1])
    ensures value == "ruby" ==> Find(Catalog, value) == Some(Catalog[2])
  {
    assert Catalog[0].value == "python";
    assert Catalog[1].value == "javascript";
    assert Catalog[2].value == "ruby";
    if value in {"python", "javascript", "ruby"} {
      var k := if value == "python" then 0 else if value == "javascript" then 1 else 2;
      FindExact(Catalog, Catalog[k]);
    }
  }

  // ---------------------------------------------------------------------
  // Preview composition
  // ---------------------------------------------------------------------

  /** The fixed text of the preview template around the stylesheet and the
      markup, whitespace included. */
  const PreviewHead: string := "\n      <html>\n        <head>\n          <style>"
  const PreviewMiddle: string := "</style>\n        </head>\n        <body>"
  const PreviewTail: string := "</body>\n      </html>\n    "

  /** The preview document: the stylesheet verbatim inside the style
      element and the markup verbatim inside the body element, with no
      escaping of either. */
  function Compose(html: string, css: string): (r: string)
    ensures |r| == |PreviewHead| + |css| + |PreviewMiddle| + |html| + |PreviewTail|
    ensures r[..|PreviewHead|] == PreviewHead
    ensures r[|PreviewHead|..|PreviewHead| + |css|] == css
    ensures r[|PreviewHead| + |css|..|PreviewHead| + |css| + |PreviewMiddle|] == PreviewMiddle
    ensures r[|PreviewHead| + |css| + |PreviewMiddle|..|r| - |PreviewTail|] == html
    ensures r[|r| - |PreviewTail|..] == PreviewTail
  {
    PreviewHead + css + PreviewMiddle + html + PreviewTail
  }

  /** As long as the stylesheet contains no `<`, it cannot close the style
      element, and the preview determines both buffers. */
  lemma ComposeDeterminesInputs(h1: string, c1: string, h2: string, c2: string)
    requires forall i :: 0 <= i < |c1| ==> c1[i] != '<'
    requires forall i :: 0 <= i < |c2| ==> c2[i] != '<'
    requires Compose(h1, c1) == Compose(h2, c2)
    ensures h1 == h2 && c1 == c2
  {
    assert PreviewMiddle[0] == '<';
    assert |c1| == |c2|;
  }

  /** Without escaping, a stylesheet that closes its own style element makes
      two different buffer pairs give the same preview. */
  lemma ComposeAmbiguousWithoutEscaping()
    ensures Compose("b", "a" + PreviewMiddle) == Compose(PreviewMiddle + "b", "a")
  {
  }

  // ---------------------------------------------------------------------
  // Run button and run outcome
  // ---------------------------------------------------------------------

  /** The run button's caption. */
  function RunButtonLabel(language: string, loading: bool): (r: string)
    ensures loading ==> r == "Running..."
    ensures !loading ==> |r| == 4 + |language| && r[..4] == "Run "
    ensures !loading && language != [] ==> r[4] == Text.UpperChar(language[0]) && r[5..] == language[1..]
  {
    if loading then "Running..." else "Run " + Text.Capitalize(language)
  }

  /** The idle captions for the catalog's languages; for JavaScript the
      caption is built from the identifier, so it reads "Javascript", not
      the selector's label "JavaScript". */
  lemma CatalogRunLabels()
    ensures RunButtonLabel(Catalog[0].value, false) == "Run " + Catalog[0].displayName
    ensures RunButtonLabel(Catalog[1].value, false) == "Run Javascript"
    ensures RunButtonLabel(Catalog[1].value, false) != "Run " + Catalog[1].displayName
    ensures RunButtonLabel(Catalog[2].value, false) == "Run " + Catalog[2].displayName
  {
    assert RunButtonLabel(Catalog[1].value, false)[5] == 'a';
  }

  /** The body posted to the execution endpoint. */
  datatype ExecuteRequest = ExecuteRequest(code: string, language: string)

  /** What the request settles to: a success payload carrying `output`, or
      an error, with the server's `error` field when a response body carried
      one and the transport's own message. */
  datatype RunResponse =
    | Succeeded(output: string)
    | Failed(serverError: Option<string>, message: string)

  const RunErrorPrefix: string := "Error executing code: "

  /** `error.response?.data?.error || error.message`: an absent or empty
      server message falls back to the transport message. */
  function ErrorDetail(serverError: Option<string>, message: string): (r: string)
    ensures serverError.Some? && serverError.value != "" ==> r == serverError.value
    ensures serverError.None? || serverError.value == "" ==> r == message
  {
    if serverError.Some? && serverError.value != "" then serverError.value else message
  }

  /** The output text shown after a failed run: the fixed prefix, then the
      most specific detail available. */
  function FailureOutput(serverError: Option<string>, message: string): (r: string)
    ensures |r| >= |RunErrorPrefix| && r[..|RunErrorPrefix|] == RunErrorPrefix
    ensures r[|RunErrorPrefix|..] == ErrorDetail(serverError, message)
  {
    RunErrorPrefix + ErrorDetail(serverError, message)
  }

  /** A failure without a server error text, or with an empty one, shows
      the prefix followed by the transport's message, whatever it is. */
  lemma TransportFailureText(message: string, serverError: Option<string>)
    requires serverError.None? || serverError.value == ""
    ensures FailureOutput(serverError, message) == RunErrorPrefix + message
  {
  }

  // ---------------------------------------------------------------------
  // Session state
  // ---------------------------------------------------------------------

  /** The result area's two tabs. */
  datatype Tab = OutputTab | PreviewTab

  /** A snapshot of every state variable of the page. */
  datatype SessionState = SessionState(
    htmlCode: string,
    cssCode: string,
    codeContent: string,
    selectedLanguage: string,
    output: string,
    previewHtml: string,
    loading: bool,
    theme: string,
    activeTab: Tab)

  /** The run button as rendered: disabled exactly while a run is loading. */
  datatype RunButton = RunButton(disabled: bool, caption: string)

  const InitialHtml: string :=
    "<div class=\"container\">\n  <h1>Hello World</h1>\n  <p>Welcome to my web app!</p>\n</div>"

  const InitialCss: string :=
    ".container {\n  max-width: 800px;\n  margin: 0 auto;\n  padding: 20px;\n  font-family: Arial, sans-serif;\n}\n\nh1 {\n  color: #333;\n}\n\np {\n  color: #666;\n}"

  class Session {
    var htmlCode: string
    var cssCode: string
    var codeContent: string
    var selectedLanguage: string
    var output: string
    var previewHtml: string
    var loading: bool
    var theme: string
    var activeTab: Tab

    /** The preview is never stale: it is the composition of the current
        markup and stylesheet buffers. */
    ghost predicate Valid()
      reads this
    {
      previewHtml == Compose(htmlCode, cssCode)
    }

    function State(): (s: SessionState)
      reads this
    {
      SessionState(htmlCode, cssCode, codeContent, selectedLanguage, output,
                   previewHtml, loading, theme, activeTab)
    }

    /** The page as mounted: the initial buffers and settings, with the
        preview effect already run once. */
    constructor ()
      ensures Valid()
      ensures htmlCode == InitialHtml && cssCode == InitialCss
      ensures selectedLanguage == Catalog[0].value == "python"
      ensures codeContent == Catalog[0].seed
      ensures output == "" && !loading
      ensures theme == "vs-dark" && activeTab == OutputTab
    {
      htmlCode := InitialHtml;
      cssCode := InitialCss;
      codeContent := Catalog[0].seed;
      selectedLanguage := Catalog[0].value;
      output := "";
      previewHtml := "";
      loading := false;
      theme := "vs-dark";
      activeTab := OutputTab;
      new;
      // the preview effect runs once on mount
      previewHtml := Compose(htmlCode, cssCode);
    }

    /** The run button for the current state. */
    function Button(): (b: RunButton)
      reads this
      ensures b.disabled <==> loading
      ensures b.caption == RunButtonLabel(selectedLanguage, loading)
    {
      RunButton(loading, RunButtonLabel(selectedLanguage, loading))
    }

    /** An edit in the markup editor; the preview effect follows. */
    method EditHtml(text: string)
      modifies this
      ensures Valid()
      ensures State() == old(State()).(htmlCode := text, previewHtml := Compose(text, old(cssCode)))
    {
      htmlCode := text;
      previewHtml := Compose(htmlCode, cssCode);
    }

    /** An edit in the stylesheet editor; the preview effect follows. */
    method EditCss(text: string)
      modifies this
      ensures Valid()
      ensures State() == old(State()).(cssCode := text, previewHtml := Compose(old(htmlCode), text))
    {
      cssCode := text;
      previewHtml := Compose(htmlCode, cssCode);
    }

    /** An edit in the script editor. */
    method EditCode(text: string)
      modifies this
      ensures Valid() <==> old(Valid())
      ensures State() == old(State()).(codeContent := text)
    {
      codeContent := text;
    }

    /** A click on one of the result tabs. */
    method SelectTab(tab: Tab)
      modifies this
      ensures Valid() <==> old(Valid())
      ensures State() == old(State()).(activeTab := tab)
    {
      activeTab := tab;
    }

    /** The language selector changed: the selection always follows the
        chosen value; the script is reseeded only when the catalog has it. */
    method HandleLanguageChange(newLanguage: string)
      modifies this
      ensures Valid() <==> old(Valid())
      ensures State() == old(State()).(
        selectedLanguage := newLanguage,
        codeContent := match Find(Catalog, newLanguage)
                       case Some(o) => o.seed
                       case None => old(codeContent))
    {
      selectedLanguage := newLanguage;
      var selected := Find(Catalog, newLanguage);
      if selected.Some? {
        codeContent := selected.value.seed;
      }
    }

    method HandleThemeChange(newTheme: string)
      modifies this
      ensures Valid() <==> old(Valid())
      ensures State() == old(State()).(theme := newTheme)
    {
      theme := newTheme;
    }

    /** The clear button, which is rendered only on the output tab. */
    method HandleClearOutput()
      requires activeTab == OutputTab
      modifies this
      ensures Valid() <==> old(Valid())
      ensures State() == old(State()).(output := "")
    {
      output := "";
    }

    /** The first half of a run: loading is switched on and the request is
        built from the script and the language at the time of the click.
        Nothing here refuses a run that starts while another is loading. */
    method StartRun() returns (request: ExecuteRequest)
      modifies this
      ensures Valid() <==> old(Valid())
      ensures request == ExecuteRequest(old(codeContent), old(selectedLanguage))
      ensures State() == old(State()).(loading := true)
      ensures Button().disabled
    {
      loading := true;
      request := ExecuteRequest(codeContent, selectedLanguage);
    }

    /** The second half of a run, when the request settles: a success shows
        the output and switches to the output tab; a failure shows the error
        text and leaves the tab alone; either way loading ends. */
    method FinishRun(response: RunResponse)
      modifies this
      ensures Valid() <==> old(Valid())
      ensures response.Succeeded? ==>
        State() == old(State()).(output := response.output, activeTab := OutputTab, loading := false)
      ensures response.Failed? ==>
        State() == old(State()).(output := FailureOutput(response.serverError, response.message), loading := false)
      ensures !Button().disabled
    {
      match response {
        case Succeeded(out) =>
          output := out;
          activeTab := OutputTab;
        case Failed(serverError, message) =>
          output := FailureOutput(serverError, message);
      }
      loading := false;
    }

    /** A whole run with no other event while the request is pending. */
    method HandleRunCode(response: RunResponse) returns (request: ExecuteRequest)
      modifies this
      ensures Valid() <==> old(Valid())
      ensures request == ExecuteRequest(old(codeContent), old(selectedLanguage))
      ensures !loading
      ensures response.Succeeded? ==>
        State() == old(State()).(output := response.output, activeTab := OutputTab, loading := false)
      ensures response.Failed? ==>
        State() == old(State()).(output := FailureOutput(response.serverError, response.message), loading := false)
    {
      request := StartRun();
      FinishRun(response);
    }
  }
}

/**
 * The window: the text of its display and the state of its "Clear text on
 * opening file" checkbox, with `showText` and the load action that runs
 * extractor, formatter and display sink in sequence.
 */
module Window {
  import opened Wrappers
  import opened Json
  import Extractor
  import Formatter
  import Display

  /**
   * What the file dialog produced: nothing (the user cancelled), or a chosen
   * file whose text either failed to parse or parsed into a document.
   */
  datatype FileChoice = Cancelled | Chosen(parsed: Option<JsonValue>)

  class MainWindow {
    var text: string        // contents of the read-only text display
    var clearOnLoad: bool   // whether the checkbox is checked

    /** A new window shows no text and its checkbox starts unchecked. */
    constructor ()
      ensures text == [] && !clearOnLoad
    {
      text := [];
      clearOnLoad := false;
    }

    /** `showText`: separator, optional clear, message, each inserted at the end. */
    method ShowText(message: string)
      modifies this`text
      ensures text == Display.AfterShow(old(text), clearOnLoad, message)
      ensures clearOnLoad ==> text == message
      ensures !clearOnLoad ==> text == old(text) + Display.Separator() + message
    {
      text := text + "\n";
      text := text + Display.Repeat('*', Display.RuleWidth);
      if clearOnLoad {
        text := [];
      }
      text := text + message;
    }

    /** `onLoadClicked`: a cancelled dialog changes nothing; otherwise the summary of the document is shown. */
    method OnLoadClicked(choice: FileChoice)
      modifies this`text
      ensures choice.Cancelled? ==> text == old(text)
      ensures choice.Chosen? ==>
        text == Display.AfterShow(old(text), clearOnLoad, LoadMessage(choice.parsed))
    {
      if choice.Chosen? {
        var results := Extractor.ParseJson(choice.parsed);
        var message := Formatter.ToMessage(results);
        ShowText(message);
      }
    }
  }

  /** The message shown for a load action on a given parse outcome. */
  function LoadMessage(parsed: Option<JsonValue>): (m: string)
    ensures m == Formatter.InvalidText <==> parsed.None? || Extractor.Count(ToObject(parsed.value)) < 0
  {
    Formatter.ToMessage(Extractor.Extract(parsed))
  }

  /** A file that does not parse is reported as not a valid JSON document. */
  lemma UnparsableReportedInvalid()
    ensures LoadMessage(None) == Formatter.InvalidText
  {
  }

  /**
   * A document that parses and declares a non-negative count is reported
   * with exactly that count and its two sums.
   */
  lemma ParsedDocumentReported(root: JsonObject)
    requires Extractor.Count(root) >= 0
    ensures Formatter.ReadMessage(LoadMessage(Some(Object(root))))
         == Formatter.Report(Extractor.Count(root),
                             Extractor.Sum(root, "x", Extractor.Count(root)),
                             Extractor.Sum(root, "y", Extractor.Count(root)))
  {
    Formatter.ReadMessageOfToMessage(Extractor.Extract(Some(Object(root))));
  }

  /**
   * The formatter's test looks only at the count, so a document that parses
   * but declares a negative "NumberOfPositions" is also reported as not a
   * valid JSON document.
   */
  lemma NegativeCountReportedInvalid(root: JsonObject)
    requires Extractor.Count(root) < 0
    ensures LoadMessage(Some(Object(root))) == Formatter.InvalidText
  {
  }
}

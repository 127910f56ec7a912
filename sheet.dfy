/**
 * The worksheet page: the character input with its 50-unit limit, the
 * "Clean Up" button, saving and loading the layout settings, the lookup of
 * pinyin for the debounced input, and the guard around the PDF export.
 */
module Sheet {
  import opened Wrappers
  import opened Text
  import opened Dims
  import opened Settings
  import opened Pagination
  import opened Editing
  import opened CharInfo
  import opened Export

  datatype NoticeKind = Success | Error

  /** The pop-up notification. */
  datatype Notice = Notice(text: string, kind: NoticeKind)

  const LimitNotice := Notice("50 Characters Max", Error)
  const SavedNotice := Notice("Settings Saved", Success)

  class PracticeSheet {
    var characters: JsString
    var debouncedCharacters: JsString
    var charInfoMap: map<CodeUnit, Info>
    var settings: Settings
    var notification: Option<Notice>
    var isGenerating: bool
    var isLoaded: bool
    /** The saved preferences: None when nothing is saved or the saved text does not parse. */
    var storage: Option<SavedPrefs>
    const dictionary: Dictionary

    /** The input never holds more than 50 code units. */
    ghost predicate Valid()
      reads this
    {
      |characters| <= MaxCharacters
    }

    /**
     * Mounting the page: empty input and the default settings, then the
     * mount effect: the export is unavailable without the PDF library, and
     * saved preferences replace the defaults field by field.
     */
    constructor(dictionary: Dictionary, storage: Option<SavedPrefs>, pdfLibraryPresent: bool)
      ensures Valid()
      ensures characters == [] && debouncedCharacters == [] && charInfoMap == map[]
      ensures settings == Load(Defaults, storage)
      ensures notification == None && !isGenerating && isLoaded == pdfLibraryPresent
      ensures this.storage == storage && this.dictionary == dictionary
    {
      this.dictionary := dictionary;
      this.storage := storage;
      characters := [];
      debouncedCharacters := [];
      charInfoMap := map[];
      notification := None;
      isGenerating := false;
      isLoaded := true;
      settings := Defaults;
      new;
      if !pdfLibraryPresent {
        isLoaded := false;
      }
      settings := Load(settings, storage);
    }

    /**
     * A change of the input. Up to 50 units it is taken, and an error notice
     * (the limit notice) is cleared; beyond that it is refused, and the limit
     * notice is shown only when the refused value is longer than the current
     * one, so shortening an over-long paste does not raise it again.
     */
    method HandleCharInput(newValue: JsString)
      requires Valid()
      modifies this
      ensures Valid()
      ensures |newValue| <= MaxCharacters ==> characters == newValue
      ensures |newValue| <= MaxCharacters ==>
        notification == (if old(notification).Some? && old(notification).value.kind == Error then None else old(notification))
      ensures |newValue| > MaxCharacters ==> characters == old(characters)
      ensures |newValue| > MaxCharacters ==>
        notification == (if |newValue| > |old(characters)| then Some(LimitNotice) else old(notification))
      ensures settings == old(settings) && debouncedCharacters == old(debouncedCharacters)
      ensures charInfoMap == old(charInfoMap) && storage == old(storage)
      ensures isGenerating == old(isGenerating) && isLoaded == old(isLoaded)
    {
      if |newValue| <= MaxCharacters {
        characters := newValue;
        if notification.Some? && notification.value.kind == Error {
          notification := None;
        }
      } else {
        if |newValue| > |characters| {
          notification := Some(LimitNotice);
        }
      }
    }

    /** "Clean Up": the input keeps only its hanzi, each once, in first-occurrence order. */
    method HandleSanitizeInput()
      requires Valid()
      modifies this
      ensures Valid()
      ensures characters == Sanitized(old(characters))
      ensures settings == old(settings) && notification == old(notification)
      ensures debouncedCharacters == old(debouncedCharacters) && charInfoMap == old(charInfoMap)
      ensures storage == old(storage) && isGenerating == old(isGenerating) && isLoaded == old(isLoaded)
    {
      var cleaned := SanitizeChars(characters);
      assert |Sanitized(characters)| <= |Hanzi(characters)| <= |characters|;
      characters := cleaned;
    }

    /** Saving writes every setting and shows the success notice, replacing any other notice. */
    method HandleSavePreferences()
      modifies this
      ensures storage == Some(Save(settings))
      ensures notification == Some(SavedNotice)
      ensures settings == old(settings) && characters == old(characters)
      ensures debouncedCharacters == old(debouncedCharacters) && charInfoMap == old(charInfoMap)
      ensures isGenerating == old(isGenerating) && isLoaded == old(isLoaded)
    {
      storage := Some(Save(settings));
      notification := Some(SavedNotice);
    }

    /**
     * The debounce timer fires: the input is taken over, and the pinyin map
     * is recomputed for it (empty when it has no hanzi).
     */
    method DebounceFired()
      modifies this
      ensures debouncedCharacters == old(characters) && characters == old(characters)
      ensures charInfoMap == FetchedInfo(characters, dictionary)
      ensures settings == old(settings) && notification == old(notification) && storage == old(storage)
      ensures isGenerating == old(isGenerating) && isLoaded == old(isLoaded)
    {
      debouncedCharacters := characters;
      if Hanzi(debouncedCharacters) == [] {
        charInfoMap := map[];
      } else {
        var result := GenerateCharInfo(debouncedCharacters, dictionary);
        charInfoMap := map c | c in result :: Info(result[c].pinyin, "");
      }
    }

    /**
     * Pressing "Download PDF": nothing happens when the PDF library is
     * missing, an export is already running or there is no page; otherwise
     * the export starts. `pages` is the current pagination.
     */
    method BeginPdf() returns (started: bool, pages: seq<Page>)
      modifies this
      ensures Paginates(debouncedCharacters, charInfoMap, settings, pages)
      ensures started <==> old(isLoaded) && !old(isGenerating) && pages != []
      ensures isGenerating == (old(isGenerating) || started)
      ensures characters == old(characters) && debouncedCharacters == old(debouncedCharacters)
      ensures charInfoMap == old(charInfoMap) && settings == old(settings)
      ensures notification == old(notification) && storage == old(storage) && isLoaded == old(isLoaded)
    {
      pages := Paginate(debouncedCharacters, charInfoMap, settings);
      if !isLoaded || isGenerating || |pages| == 0 {
        return false, pages;
      }
      isGenerating := true;
      started := true;
    }

    /**
     * The export after its font fetches: the fonts requested, and the
     * drawing commands of the document; the export flag is reset. Whether
     * each fetch succeeded is a parameter.
     */
    method FinishPdf(pages: seq<Page>, kaitiFetched: bool, pinyinFetched: bool) returns (requests: seq<Font>, cmds: seq<Cmd>)
      requires isGenerating
      modifies this
      ensures requests == FontRequests(pages, settings)
      ensures cmds == PagesCmds(pages, settings, RegisteredFonts(pages, settings, kaitiFetched, pinyinFetched))
      ensures !isGenerating
      ensures characters == old(characters) && debouncedCharacters == old(debouncedCharacters)
      ensures charInfoMap == old(charInfoMap) && settings == old(settings)
      ensures notification == old(notification) && storage == old(storage) && isLoaded == old(isLoaded)
    {
      requests := FontRequests(pages, settings);
      var fonts := RegisteredFonts(pages, settings, kaitiFetched, pinyinFetched);
      cmds := DrawPages(pages, settings, fonts);
      isGenerating := false;
    }
  }

  /**
   * While an export runs, pressing the button again does nothing; once it
   * has finished, the button works again.
   */
  method PressDuringExport(sheet: PracticeSheet) returns (first: bool, second: bool, afterFinish: bool)
    requires sheet.isLoaded && !sheet.isGenerating
    modifies sheet
    ensures !second
    ensures first ==> afterFinish
  {
    var pages, pages2, pages3;
    first, pages := sheet.BeginPdf();
    second, afterFinish := false, false;
    if first {
      second, pages2 := sheet.BeginPdf();
      var requests, cmds := sheet.FinishPdf(pages, true, true);
      afterFinish, pages3 := sheet.BeginPdf();
      PaginationIsUnique(sheet.debouncedCharacters, sheet.charInfoMap, sheet.settings, pages, pages3);
    }
  }
}

/** The catalog (.po) scanner of src/translator.rs. A file's lines are walked
    with a cursor; a `msgid ` line followed by a `msgstr` line is a singular
    record, a `msgid ` line followed by `msgid_plural` and `msgstr[0]` lines
    (and one more line) is a plural record. A record whose slot is empty, or
    any record under force mode, gets its slot line(s) rewritten with the
    translation of its key. The translation service is the parameter
    `translate`: message and language code in, text or error out. */
module PoTranslator {
  import opened Common

  /** `translate_msg` as the scanner calls it: the message and the ISO code
      of the target language in (the code is turned into a language name by
      IsoToName for the instructions), translated text or error out. */
  type Translate = (string, string) -> Result<string>

  /* ---------------- line recognition and payloads ---------------- */

  /** `is_msgid`: the line starts with "msgid " (with the space). */
  predicate IsMsgid(line: string)
  {
    StartsWith(line, "msgid ")
  }

  /** A header is exactly "msgid " followed by anything; `msgid_plural` and
      `msgstr` lines are never headers. */
  lemma MsgidHeaders(line: string)
    ensures IsMsgid(line) <==> exists rest :: line == "msgid " + rest
    ensures StartsWith(line, "msgid_plural") ==> !IsMsgid(line)
    ensures StartsWith(line, "msgstr") ==> !IsMsgid(line)
  {
    if IsMsgid(line) {
      assert line == "msgid " + line[6..];
    }
    if StartsWith(line, "msgid_plural") {
      assert line[5] == "msgid_plural"[5] == '_';
    }
  }

  /** `extract_po_string`: the text strictly between the first and the last
      '"'. No quote at all is the MalformedLine error; exactly one quote makes
      the slice start pass its end, which panics. */
  function ExtractPoString(line: string): (r: Result<string>)
    ensures r.Err? ==> r.error == MalformedLine(line) || r.error.Panic?
  {
    match FindChar(line, '"')
    case None => Err(MalformedLine(line))
    case Some(start) =>
      match RFindChar(line, '"')
      case None => Err(MalformedLine(line))
      case Some(end) =>
        if start + 1 > end then Err(Panic("slice index starts after its end"))
        else Ok(line[start + 1..end])
  }

  /** The outcome of ExtractPoString by the number of quotes in the line:
      none is the MalformedLine error, exactly one is the panic, two or more
      give a text (see ExtractPoStringBetweenOutermostQuotes). */
  lemma ExtractPoStringOutcomes(line: string)
    ensures ExtractPoString(line) == Err(MalformedLine(line)) <==> multiset(line)['"'] == 0
    ensures ExtractPoString(line).Err? && ExtractPoString(line).error.Panic? <==> multiset(line)['"'] == 1
    ensures ExtractPoString(line).Ok? <==> multiset(line)['"'] >= 2
  {
    var first := FindChar(line, '"');
    if first.None? {
      assert multiset(line)['"'] == 0;
    } else {
      QuoteCount(line, first.value, RFindChar(line, '"').value);
    }
  }

  /** A text that ExtractPoString gives is the part of the line between a
      quote-free prefix and a quote-free suffix, each followed or preceded by
      one '"'. */
  lemma ExtractPoStringBetweenOutermostQuotes(line: string)
    requires ExtractPoString(line).Ok?
    ensures exists pre, post ::
      '"' !in pre && '"' !in post && line == pre + "\"" + ExtractPoString(line).value + "\"" + post
  {
    var start, end := FindChar(line, '"').value, RFindChar(line, '"').value;
    assert ExtractPoString(line).value == line[start + 1..end];
    SplitAtQuotes(line, start, end);
  }

  /** A line holding a single quote panics, whatever surrounds it: the
      line `msgid "Hello`, whose closing quote is missing, is not reported
      as malformed. */
  lemma SingleQuotePanics(pre: string, post: string)
    requires '"' !in pre && '"' !in post
    ensures ExtractPoString(pre + "\"" + post).Err? && ExtractPoString(pre + "\"" + post).error.Panic?
  {
    var line := pre + "\"" + post;
    assert line[..|pre|] == pre && line[|pre| + 1..] == post;
    assert FindChar(line, '"') == Some(|pre|);
    assert RFindChar(line, '"') == Some(|pre|);
  }

  /** A line cut at two of its quotes. */
  lemma SplitAtQuotes(line: string, start: nat, end: nat)
    requires start < end < |line| && line[start] == '"' && line[end] == '"'
    ensures line == line[..start] + "\"" + line[start + 1..end] + "\"" + line[end + 1..]
  {
    assert line == line[..start] + [line[start]] + line[start + 1..end] + [line[end]] + line[end + 1..];
  }

  /** How many quotes a line holds, from its first and its last quote. */
  lemma QuoteCount(line: string, start: nat, end: nat)
    requires start < |line| && end < |line| && line[start] == '"' && line[end] == '"'
    requires '"' !in line[..start] && '"' !in line[end + 1..]
    ensures start <= end
    ensures start == end ==> multiset(line)['"'] == 1
    ensures start < end ==> multiset(line)['"'] >= 2
  {
    assert line == line[..start] + [line[start]] + line[start + 1..];
    assert multiset(line)['"'] == multiset(line[..start])['"'] + 1 + multiset(line[start + 1..])['"'];
    if start == end {
      assert multiset(line[start + 1..])['"'] == 0;
    } else {
      assert line[end] == line[start + 1..][end - start - 1];
    }
  }

  /** The slot lines the scanner writes: `msgstr "<text>"`,
      `msgstr[0] "<text>"`, `msgstr[1] "<text>"`. */
  function FormatSlot(keyword: string, text: string): (line: string)
  {
    keyword + " \"" + text + "\""
  }

  /** A written slot line starts with its keyword and a space. */
  lemma SlotStartsWithKeyword(keyword: string, text: string)
    ensures StartsWith(FormatSlot(keyword, text), keyword)
    ensures StartsWith(FormatSlot(keyword, text), keyword + " ")
  {
    assert FormatSlot(keyword, text)[..|keyword| + 1] == keyword + " ";
  }

  /** A written msgid line is a header. */
  lemma HeaderSlot(text: string)
    ensures IsMsgid(FormatSlot("msgid", text))
  {
    assert FormatSlot("msgid", text)[..6] == "msgid ";
  }

  /** Round trip: extracting from a written slot line gives back exactly the
      text written, whatever quotes the text itself holds. */
  lemma ExtractFormatRoundTrip(keyword: string, text: string)
    requires '"' !in keyword
    ensures ExtractPoString(FormatSlot(keyword, text)) == Ok(text)
  {
    var line := FormatSlot(keyword, text);
    var start, end := |keyword| + 1, |line| - 1;
    assert line[..start] == keyword + " ";
    assert line[start] == '"' && line[end] == '"';
    var first := FindChar(line, '"');
    var last := RFindChar(line, '"');
    assert first == Some(start);
    assert last == Some(end);
    assert line[start + 1..end] == text;
  }

  /** The three slot keywords hold no quote, so the round trip applies to them. */
  lemma SlotKeywordsRoundTrip(text: string)
    ensures ExtractPoString(FormatSlot("msgstr", text)) == Ok(text)
    ensures ExtractPoString(FormatSlot("msgstr[0]", text)) == Ok(text)
    ensures ExtractPoString(FormatSlot("msgstr[1]", text)) == Ok(text)
  {
    ExtractFormatRoundTrip("msgstr", text);
    ExtractFormatRoundTrip("msgstr[0]", text);
    ExtractFormatRoundTrip("msgstr[1]", text);
  }

  /* ---------------- language names ---------------- */

  /** `iso_to_name`: total. Listed ISO 639-1 codes give their language name;
      every other text, the empty string included, gives "English". */
  function IsoToName(code: string): (name: string)
  {
    match code
    case "ab" => "Abkhazian"
    case "aa" => "Afar"
    case "af" => "Afrikaans"
    case "ak" => "Akan"
    case "sq" => "Albanian"
    case "am" => "Amharic"
    case "ar" => "Arabic"
    case "an" => "Aragonese"
    case "hy" => "Armenian"
    case "as" => "Assamese"
    case "av" => "Avaric"
    case "ae" => "Avestan"
    case "ay" => "Aymara"
    case "az" => "Azerbaijani"
    case "ba" => "Bashkir"
    case "bm" => "Bambara"
    case "eu" => "Basque"
    case "be" => "Belarusian"
    case "bn" => "Bengali"
    case "bh" => "Bihari languages"
    case "bi" => "Bislama"
    case "bs" => "Bosnian"
    case "br" => "Breton"
    case "bg" => "Bulgarian"
    case "my" => "Burmese"
    case "ca" => "Catalan"
    case "ch" => "Chamorro"
    case "ce" => "Chechen"
    case "ny" => "Chichewa"
    case "zh" => "Chinese"
    case "cv" => "Chuvash"
    case "kw" => "Cornish"
    case "co" => "Corsican"
    case "cr" => "Cree"
    case "hr" => "Croatian"
    case "cs" => "Czech"
    case "da" => "Danish"
    case "dv" => "Divehi"
    case "nl" => "Dutch"
    case "dz" => "Dzongkha"
    case "en" => "English"
    case "eo" => "Esperanto"
    case "et" => "Estonian"
    case "ee" => "Ewe"
    case "fo" => "Faroese"
    case "fj" => "Fijian"
    case "fi" => "Finnish"
    case "fr" => "French"
    case "ff" => "Fulah"
    case "gl" => "Galician"
    case "ka" => "Georgian"
    case "de" => "German"
    case "el" => "Greek"
    case "gn" => "Guarani"
    case "gu" => "Gujarati"
    case "ht" => "Haitian Creole"
    case "ha" => "Hausa"
    case "he" => "Hebrew"
    case "hz" => "Herero"
    case "hi" => "Hindi"
    case "ho" => "Hiri Motu"
    case "hu" => "Hungarian"
    case "ia" => "Interlingua"
    case "id" => "Indonesian"
    case "ie" => "Interlingue"
    case "ga" => "Irish"
    case "ig" => "Igbo"
    case "ik" => "Inupiaq"
    case "io" => "Ido"
    case "is" => "Icelandic"
    case "it" => "Italian"
    case "iu" => "Inuktitut"
    case "ja" => "Japanese"
    case "jv" => "Javanese"
    case "kl" => "Kalaallisut"
    case "kn" => "Kannada"
    case "kr" => "Kanuri"
    case "ks" => "Kashmiri"
    case "kk" => "Kazakh"
    case "km" => "Khmer"
    case "ki" => "Kikuyu"
    case "rw" => "Kinyarwanda"
    case "ky" => "Kirghiz"
    case "kv" => "Komi"
    case "kg" => "Kongo"
    case "ko" => "Korean"
    case "ku" => "Kurdish"
    case "kj" => "Kuanyama"
    case "la" => "Latin"
    case "lb" => "Luxembourgish"
    case "lg" => "Ganda"
    case "li" => "Limburgan"
    case "ln" => "Lingala"
    case "lo" => "Lao"
    case "lt" => "Lithuanian"
    case "lu" => "Luba-Katanga"
    case "lv" => "Latvian"
    case "gv" => "Manx"
    case "mk" => "Macedonian"
    case "mg" => "Malagasy"
    case "ms" => "Malay"
    case "ml" => "Malayalam"
    case "mt" => "Maltese"
    case "mi" => "Maori"
    case "mr" => "Marathi"
    case "mh" => "Marshallese"
    case "mn" => "Mongolian"
    case "na" => "Nauru"
    case "nv" => "Navajo"
    case "nd" => "North Ndebele"
    case "ne" => "Nepali"
    case "ng" => "Ndonga"
    case "nb" => "Norwegian Bokmål"
    case "nn" => "Norwegian Nynorsk"
    case "no" => "Norwegian"
    case "ii" => "Sichuan Yi"
    case "nr" => "South Ndebele"
    case "oc" => "Occitan"
    case "oj" => "Ojibwa"
    case "cu" => "Church Slavic"
    case "om" => "Oromo"
    case "or" => "Oriya"
    case "os" => "Ossetian"
    case "pa" => "Punjabi"
    case "pi" => "Pali"
    case "fa" => "Persian"
    case "pl" => "Polish"
    case "ps" => "Pashto"
    case "pt" => "Portuguese"
    case "qu" => "Quechua"
    case "rm" => "Romansh"
    case "rn" => "Rundi"
    case "ro" => "Romanian"
    case "ru" => "Russian"
    case "sa" => "Sanskrit"
    case "sc" => "Sardinian"
    case "sd" => "Sindhi"
    case "se" => "Northern Sami"
    case "sm" => "Samoan"
    case "sg" => "Sango"
    case "sr" => "Serbian"
    case "gd" => "Gaelic"
    case "sn" => "Shona"
    case "si" => "Sinhala"
    case "sk" => "Slovak"
    case "sl" => "Slovenian"
    case "so" => "Somali"
    case "st" => "Southern Sotho"
    case "es" => "Spanish"
    case "su" => "Sundanese"
    case "sw" => "Swahili"
    case "ss" => "Swati"
    case "sv" => "Swedish"
    case "ta" => "Tamil"
    case "te" => "Telugu"
    case "tg" => "Tajik"
    case "th" => "Thai"
    case "ti" => "Tigrinya"
    case "bo" => "Tibetan"
    case "tk" => "Turkmen"
    case "tl" => "Tagalog"
    case "tn" => "Tswana"
    case "to" => "Tonga"
    case "tr" => "Turkish"
    case "ts" => "Tsonga"
    case "tt" => "Tatar"
    case "tw" => "Twi"
    case "ty" => "Tahitian"
    case "ug" => "Uighur"
    case "uk" => "Ukrainian"
    case "ur" => "Urdu"
    case "uz" => "Uzbek"
    case "ve" => "Venda"
    case "vi" => "Vietnamese"
    case "vo" => "Volapük"
    case "wa" => "Walloon"
    case "cy" => "Welsh"
    case "wo" => "Wolof"
    case "fy" => "Western Frisian"
    case "xh" => "Xhosa"
    case "yi" => "Yiddish"
    case "yo" => "Yoruba"
    case "za" => "Zhuang"
    case "zu" => "Zulu"
    case _ => "English"
  }

  /** Anything that is not a two-letter code falls back to English. */
  lemma IsoToNameFallback(code: string)
    requires |code| != 2
    ensures IsoToName(code) == "English"
  {
  }

  /** Every code gives a non-empty name for the instructions. */
  lemma IsoToNameNonEmpty(code: string)
    ensures IsoToName(code) != []
  {
  }

  /** Two listed codes and an unlisted one. */
  lemma IsoToNameSpanish()
    ensures IsoToName("es") == "Spanish"
  {
  }

  lemma IsoToNameFrench()
    ensures IsoToName("fr") == "French"
  {
  }

  lemma IsoToNameUnlisted()
    ensures IsoToName("xx") == "English"
  {
  }

  /* ---------------- record steps ---------------- */

  /** `try_translate_singular` matches: there is a next line and it starts
      with "msgstr". */
  predicate SingularShape(lines: seq<string>, i: nat)
  {
    i + 1 < |lines| && StartsWith(lines[i + 1], "msgstr")
  }

  /** `try_translate_plural` matches: four lines from `i`, the second
      starting with "msgid_plural" and the third with "msgstr[0]". The fourth
      line is not looked at. */
  predicate PluralShape(lines: seq<string>, i: nat)
  {
    i + 3 < |lines| && StartsWith(lines[i + 1], "msgid_plural") && StartsWith(lines[i + 2], "msgstr[0]")
  }

  /** What `try_translate_singular` does to the lines: Ok(None) when the
      record does not match or needs no translation, Ok(Some(new lines))
      when the slot line was rewritten (the source's Some(1)). */
  function SingularStep(lines: seq<string>, i: nat, translate: Translate, lang: string, force: bool)
    : (r: Result<Option<seq<string>>>)
    // no-op cases: no next line, or the next line is not a msgstr line
    ensures !SingularShape(lines, i) ==> r == Ok(None)
    // no-op case: the slot already holds text and force is off
    ensures (SingularShape(lines, i) && ExtractPoString(lines[i]).Ok? && ExtractPoString(lines[i + 1]).Ok?
             && ExtractPoString(lines[i + 1]).value != [] && !force) ==> r == Ok(None)
    // translating case: only the slot line changes, and it now holds the
    // translation of the msgid payload
    ensures r.Ok? && r.value.Some? ==>
      && SingularShape(lines, i)
      && ExtractPoString(lines[i]).Ok?
      && translate(ExtractPoString(lines[i]).value, lang).Ok?
      && var t := translate(ExtractPoString(lines[i]).value, lang).value;
         r.value.value == lines[i + 1 := FormatSlot("msgstr", t)]
         && ExtractPoString(r.value.value[i + 1]) == Ok(t)
  {
    if !SingularShape(lines, i) then Ok(None)
    else
      match ExtractPoString(lines[i])
      case Err(e) => Err(e)
      case Ok(msgid) =>
        match ExtractPoString(lines[i + 1])
        case Err(e) => Err(e)
        case Ok(msgstr) =>
          if msgstr == [] || force then
            match translate(msgid, lang)
            case Err(e) => Err(e)
            case Ok(t) =>
              SlotKeywordsRoundTrip(t);
              Ok(Some(lines[i + 1 := FormatSlot("msgstr", t)]))
          else Ok(None)
  }

  /** What `try_translate_plural` does to the lines. The translation is that
      of the msgid_plural payload, written into both slot lines. */
  function PluralStep(lines: seq<string>, i: nat, translate: Translate, lang: string, force: bool)
    : (r: Result<Option<seq<string>>>)
    ensures !PluralShape(lines, i) ==> r == Ok(None)
    ensures (PluralShape(lines, i) && ExtractPoString(lines[i + 1]).Ok?
             && ExtractPoString(lines[i + 2]).Ok? && ExtractPoString(lines[i + 2]).value != []
             && ExtractPoString(lines[i + 3]).Ok? && ExtractPoString(lines[i + 3]).value != []
             && !force) ==> r == Ok(None)
    ensures r.Ok? && r.value.Some? ==>
      && PluralShape(lines, i)
      && ExtractPoString(lines[i + 1]).Ok?
      && translate(ExtractPoString(lines[i + 1]).value, lang).Ok?
      && var t := translate(ExtractPoString(lines[i + 1]).value, lang).value;
         r.value.value == lines[i + 2 := FormatSlot("msgstr[0]", t)][i + 3 := FormatSlot("msgstr[1]", t)]
         && ExtractPoString(r.value.value[i + 2]) == Ok(t)
         && ExtractPoString(r.value.value[i + 3]) == Ok(t)
  {
    if !PluralShape(lines, i) then Ok(None)
    else
      match ExtractPoString(lines[i + 1])
      case Err(e) => Err(e)
      case Ok(msgidPlural) =>
        match ExtractPoString(lines[i + 2])
        case Err(e) => Err(e)
        case Ok(msgstr0) =>
          match ExtractPoString(lines[i + 3])
          case Err(e) => Err(e)
          case Ok(msgstr1) =>
            if msgstr0 == [] || msgstr1 == [] || force then
              match translate(msgidPlural, lang)
              case Err(e) => Err(e)
              case Ok(t) =>
                SlotKeywordsRoundTrip(t);
                Ok(Some(lines[i + 2 := FormatSlot("msgstr[0]", t)][i + 3 := FormatSlot("msgstr[1]", t)]))
            else Ok(None)
  }

  /** When `try_translate_singular` translates and when it fails, for a
      record of the singular shape: the msgid payload is extracted first,
      then the slot's; an empty slot, or force, sends the msgid to the
      service, and its answer is written into the slot. With the no-op cases
      in SingularStep's contract this decides every outcome. */
  lemma SingularStepDecision(lines: seq<string>, i: nat, translate: Translate, lang: string, force: bool)
    requires SingularShape(lines, i)
    ensures var r := SingularStep(lines, i, translate, lang, force);
      var msgid, msgstr := ExtractPoString(lines[i]), ExtractPoString(lines[i + 1]);
      && (msgid.Err? ==> r == Err(msgid.error))
      && (msgid.Ok? && msgstr.Err? ==> r == Err(msgstr.error))
      && (msgid.Ok? && msgstr.Ok? && (msgstr.value == [] || force) ==>
            match translate(msgid.value, lang)
            case Err(e) => r == Err(e)
            case Ok(t) => r == Ok(Some(lines[i + 1 := FormatSlot("msgstr", t)])))
      && (r.Err? <==> msgid.Err? || msgstr.Err? ||
                      ((msgstr.value == [] || force) && translate(msgid.value, lang).Err?))
  {
  }

  /** When `try_translate_plural` translates and when it fails, for a record
      of the plural shape: the three payloads are extracted in order; either
      slot empty, or force, sends the msgid_plural payload to the service,
      and its answer is written into both slots. */
  lemma PluralStepDecision(lines: seq<string>, i: nat, translate: Translate, lang: string, force: bool)
    requires PluralShape(lines, i)
    ensures var r := PluralStep(lines, i, translate, lang, force);
      var plural, slot0, slot1 := ExtractPoString(lines[i + 1]), ExtractPoString(lines[i + 2]), ExtractPoString(lines[i + 3]);
      && (plural.Err? ==> r == Err(plural.error))
      && (plural.Ok? && slot0.Err? ==> r == Err(slot0.error))
      && (plural.Ok? && slot0.Ok? && slot1.Err? ==> r == Err(slot1.error))
      && (plural.Ok? && slot0.Ok? && slot1.Ok? && (slot0.value == [] || slot1.value == [] || force) ==>
            match translate(plural.value, lang)
            case Err(e) => r == Err(e)
            case Ok(t) => r == Ok(Some(lines[i + 2 := FormatSlot("msgstr[0]", t)][i + 3 := FormatSlot("msgstr[1]", t)])))
      && (r.Err? <==> plural.Err? || slot0.Err? || slot1.Err? ||
                      ((slot0.value == [] || slot1.value == [] || force) && translate(plural.value, lang).Err?))
  {
  }

  /** A plural record whose first slot is empty is translated even without
      force, and both slot lines are rewritten. */
  lemma PluralFillsEmptySlot(lines: seq<string>, translate: Translate, lang: string)
    requires PluralShape(lines, 0)
    requires ExtractPoString(lines[1]).Ok? && ExtractPoString(lines[2]) == Ok([]) && ExtractPoString(lines[3]).Ok?
    requires translate(ExtractPoString(lines[1]).value, lang).Ok?
    ensures var t := translate(ExtractPoString(lines[1]).value, lang).value;
      PluralStep(lines, 0, translate, lang, false) == Ok(Some(lines[2 := FormatSlot("msgstr[0]", t)][3 := FormatSlot("msgstr[1]", t)]))
  {
    PluralStepDecision(lines, 0, translate, lang, false);
  }

  /** A plural record written in the usual form, but whose fourth line is
      the header of the next record. */
  function PluralThenHeader(key: string, plural: string, next: string): (lines: seq<string>)
    ensures |lines| == 4 && IsMsgid(lines[3]) && PluralShape(lines, 0)
  {
    var lines := [FormatSlot("msgid", key), FormatSlot("msgid_plural", plural), FormatSlot("msgstr[0]", ""), FormatSlot("msgid", next)];
    SlotStartsWithKeyword("msgid_plural", plural);
    SlotStartsWithKeyword("msgstr[0]", "");
    HeaderSlot(next);
    FourLinePluralShape(lines[0], lines[1], lines[2], lines[3]);
    lines
  }

  /** Every payload of that record extracts: the plural text, an empty
      first slot, and the next record's key. */
  lemma PluralThenHeaderPayloads(key: string, plural: string, next: string)
    ensures var lines := PluralThenHeader(key, plural, next);
      && ExtractPoString(lines[1]) == Ok(plural)
      && ExtractPoString(lines[2]) == Ok([])
      && ExtractPoString(lines[3]) == Ok(next)
  {
    ExtractFormatRoundTrip("msgid_plural", plural);
    ExtractFormatRoundTrip("msgstr[0]", "");
    ExtractFormatRoundTrip("msgid", next);
  }

  /** Four lines whose second and third start as a plural record's do have
      the plural shape. */
  lemma FourLinePluralShape(a: string, b: string, c: string, d: string)
    requires StartsWith(b, "msgid_plural") && StartsWith(c, "msgstr[0]")
    ensures PluralShape([a, b, c, d], 0)
  {
  }

  /** The fourth line of a plural record is overwritten whatever it holds,
      even when it is the header of the next record. */
  lemma PluralOverwritesUncheckedFourthLine(translate: Translate, lang: string, key: string, plural: string, next: string)
    requires translate(plural, lang).Ok?
    ensures var lines := PluralThenHeader(key, plural, next);
      var t := translate(plural, lang).value;
      && PluralStep(lines, 0, translate, lang, false) == Ok(Some(lines[2 := FormatSlot("msgstr[0]", t)][3 := FormatSlot("msgstr[1]", t)]))
      && !IsMsgid(FormatSlot("msgstr[1]", t))
  {
    var t := translate(plural, lang).value;
    var lines := PluralThenHeader(key, plural, next);
    PluralThenHeaderPayloads(key, plural, next);
    PluralFillsEmptySlot(lines, translate, lang);
    assert !IsMsgid(FormatSlot("msgstr[1]", t)) by {
      assert FormatSlot("msgstr[1]", t)[..6] == "msgstr";
      MsgidHeaders(FormatSlot("msgstr[1]", t));
    }
  }

  /* ---------------- the scan ---------------- */

  /** The lines after a scan from some cursor, and the count of records
      changed so far. */
  datatype Scan = Scan(lines: seq<string>, changes: nat)

  /** The `while` loop of `process_po_file` from cursor `i` with `changes`
      already counted: a header line tries the singular step, then the plural
      one; a translated singular record moves the cursor by 2, a translated
      plural record by 4, anything else by 1. */
  function ScanFrom(lines: seq<string>, i: nat, changes: nat, translate: Translate, lang: string, force: bool)
    : (r: Result<Scan>)
    requires i <= |lines|
    ensures r.Ok? ==> |r.value.lines| == |lines| && forall k :: 0 <= k < i ==> r.value.lines[k] == lines[k]
    ensures r.Ok? ==> changes <= r.value.changes && 2 * (r.value.changes - changes) <= |lines| - i
    decreases |lines| - i
  {
    if i == |lines| then Ok(Scan(lines, changes))
    else if !IsMsgid(lines[i]) then ScanFrom(lines, i + 1, changes, translate, lang, force)
    else
      match SingularStep(lines, i, translate, lang, force)
      case Err(e) => Err(e)
      case Ok(Some(next)) =>
        ScanFrom(next, i + 2, changes + 1, translate, lang, force)
      case Ok(None) =>
        match PluralStep(lines, i, translate, lang, force)
        case Err(e) => Err(e)
        case Ok(Some(next)) =>
          ScanFrom(next, i + 4, changes + 1, translate, lang, force)
        case Ok(None) => ScanFrom(lines, i + 1, changes, translate, lang, force)
  }

  /** `try_translate_singular` on the lines in place. */
  method TrySingular(lines: array<string>, i: nat, translate: Translate, lang: string, force: bool)
    returns (r: Result<Option<nat>>)
    modifies lines
    ensures match SingularStep(old(lines[..]), i, translate, lang, force)
            case Err(e) => r == Err(e) && lines[..] == old(lines[..])
            case Ok(None) => r == Ok(None) && lines[..] == old(lines[..])
            case Ok(Some(next)) => r == Ok(Some(1)) && lines[..] == next
  {
    if i + 1 >= lines.Length || !StartsWith(lines[i + 1], "msgstr") {
      return Ok(None);
    }
    var msgid := ExtractPoString(lines[i]);
    if msgid.Err? {
      return Err(msgid.error);
    }
    var msgstr := ExtractPoString(lines[i + 1]);
    if msgstr.Err? {
      return Err(msgstr.error);
    }
    if msgstr.value == [] || force {
      var translated := translate(msgid.value, lang);
      if translated.Err? {
        return Err(translated.error);
      }
      lines[i + 1] := FormatSlot("msgstr", translated.value);
      return Ok(Some(1));
    }
    return Ok(None);
  }

  /** `try_translate_plural` on the lines in place. */
  method TryPlural(lines: array<string>, i: nat, translate: Translate, lang: string, force: bool)
    returns (r: Result<Option<nat>>)
    modifies lines
    ensures match PluralStep(old(lines[..]), i, translate, lang, force)
            case Err(e) => r == Err(e) && lines[..] == old(lines[..])
            case Ok(None) => r == Ok(None) && lines[..] == old(lines[..])
            case Ok(Some(next)) => r == Ok(Some(1)) && lines[..] == next
  {
    if i + 3 >= lines.Length {
      return Ok(None);
    }
    if !StartsWith(lines[i + 1], "msgid_plural") || !StartsWith(lines[i + 2], "msgstr[0]") {
      return Ok(None);
    }
    var msgidPlural := ExtractPoString(lines[i + 1]);
    if msgidPlural.Err? {
      return Err(msgidPlural.error);
    }
    var msgstr0 := ExtractPoString(lines[i + 2]);
    if msgstr0.Err? {
      return Err(msgstr0.error);
    }
    var msgstr1 := ExtractPoString(lines[i + 3]);
    if msgstr1.Err? {
      return Err(msgstr1.error);
    }
    if msgstr0.value == [] || msgstr1.value == [] || force {
      var translated := translate(msgidPlural.value, lang);
      if translated.Err? {
        return Err(translated.error);
      }
      lines[i + 2] := FormatSlot("msgstr[0]", translated.value);
      lines[i + 3] := FormatSlot("msgstr[1]", translated.value);
      return Ok(Some(1));
    }
    return Ok(None);
  }

  /** One turn of the scan loop of `process_po_file` at cursor `i` with
      `changes` counted so far: on success it returns the next cursor and
      count, from which the scan goes on exactly as it would have from `i`. */
  method ScanAt(lines: array<string>, i: nat, changes: nat, translate: Translate, lang: string, force: bool)
    returns (r: Result<(nat, nat)>)
    requires i < lines.Length
    modifies lines
    ensures match r
            case Err(e) => ScanFrom(old(lines[..]), i, changes, translate, lang, force) == Err(e)
            case Ok(next) =>
              && i < next.0 <= lines.Length
              && ScanFrom(lines[..], next.0, next.1, translate, lang, force)
                 == ScanFrom(old(lines[..]), i, changes, translate, lang, force)
  {
    ghost var before := lines[..];
    if !IsMsgid(lines[i]) {
      ScanAfterSkip(before, i, changes, translate, lang, force);
      return Ok((i + 1, changes));
    }
    var singular := TrySingular(lines, i, translate, lang, force);
    if singular.Err? {
      ScanStopsOnError(before, i, changes, translate, lang, force);
      return Err(singular.error);
    }
    if singular.value.Some? {
      ScanAfterSingular(before, i, changes, translate, lang, force);
      return Ok((i + 2, changes + 1));
    }
    assert lines[..] == before;
    r := ScanPluralAt(lines, i, changes, translate, lang, force);
  }

  /** The rest of a turn of the scan loop at a header the singular step
      left alone: the plural step, or on to the next line. */
  method ScanPluralAt(lines: array<string>, i: nat, changes: nat, translate: Translate, lang: string, force: bool)
    returns (r: Result<(nat, nat)>)
    requires i < lines.Length && IsMsgid(lines[i])
    requires SingularStep(lines[..], i, translate, lang, force) == Ok(None)
    modifies lines
    ensures match r
            case Err(e) => ScanFrom(old(lines[..]), i, changes, translate, lang, force) == Err(e)
            case Ok(next) =>
              && i < next.0 <= lines.Length
              && ScanFrom(lines[..], next.0, next.1, translate, lang, force)
                 == ScanFrom(old(lines[..]), i, changes, translate, lang, force)
  {
    ghost var before := lines[..];
    var plural := TryPlural(lines, i, translate, lang, force);
    if plural.Err? {
      assert ScanFrom(before, i, changes, translate, lang, force) == Err(plural.error) by {
        ScanStopsOnError(before, i, changes, translate, lang, force);
      }
      return Err(plural.error);
    }
    if plural.value.Some? {
      assert ScanFrom(lines[..], i + 4, changes + 1, translate, lang, force) == ScanFrom(before, i, changes, translate, lang, force) by {
        ScanAfterPlural(before, i, changes, translate, lang, force);
      }
      return Ok((i + 4, changes + 1));
    }
    assert lines[..] == before;
    assert ScanFrom(before, i + 1, changes, translate, lang, force) == ScanFrom(before, i, changes, translate, lang, force) by {
      ScanAfterSkip(before, i, changes, translate, lang, force);
    }
    return Ok((i + 1, changes));
  }

  /** The scan loop of `process_po_file` over the lines in place; on success
      it returns the number of records changed. */
  method ScanLines(lines: array<string>, translate: Translate, lang: string, force: bool) returns (r: Result<nat>)
    modifies lines
    ensures match ScanFrom(old(lines[..]), 0, 0, translate, lang, force)
            case Err(e) => r == Err(e)
            case Ok(scan) => r == Ok(scan.changes) && lines[..] == scan.lines
  {
    ghost var goal := ScanFrom(lines[..], 0, 0, translate, lang, force);
    var changes: nat := 0;
    var i: nat := 0;
    while i < lines.Length
      invariant i <= lines.Length
      invariant ScanFrom(lines[..], i, changes, translate, lang, force) == goal
      decreases lines.Length - i
    {
      var step := ScanAt(lines, i, changes, translate, lang, force);
      if step.Err? {
        return Err(step.error);
      }
      i, changes := step.value.0, step.value.1;
    }
    return Ok(changes);
  }

  /** The scan at a header whose singular step translates goes on two lines
      further, on the rewritten lines, with one more change. */
  lemma ScanAfterSingular(lines: seq<string>, i: nat, changes: nat, translate: Translate, lang: string, force: bool)
    requires i < |lines| && IsMsgid(lines[i])
    requires SingularStep(lines, i, translate, lang, force).Ok? && SingularStep(lines, i, translate, lang, force).value.Some?
    ensures ScanFrom(lines, i, changes, translate, lang, force)
         == ScanFrom(SingularStep(lines, i, translate, lang, force).value.value, i + 2, changes + 1, translate, lang, force)
  {
  }

  /** The scan at a header that is not singular but whose plural step
      translates goes on four lines further, with one more change. */
  lemma ScanAfterPlural(lines: seq<string>, i: nat, changes: nat, translate: Translate, lang: string, force: bool)
    requires i < |lines| && IsMsgid(lines[i])
    requires SingularStep(lines, i, translate, lang, force) == Ok(None)
    requires PluralStep(lines, i, translate, lang, force).Ok? && PluralStep(lines, i, translate, lang, force).value.Some?
    ensures ScanFrom(lines, i, changes, translate, lang, force)
         == ScanFrom(PluralStep(lines, i, translate, lang, force).value.value, i + 4, changes + 1, translate, lang, force)
  {
  }

  /** The scan at a line that is no header, or a header neither step
      translates, goes on at the next line. */
  lemma ScanAfterSkip(lines: seq<string>, i: nat, changes: nat, translate: Translate, lang: string, force: bool)
    requires i < |lines|
    requires IsMsgid(lines[i]) ==>
      SingularStep(lines, i, translate, lang, force) == Ok(None) && PluralStep(lines, i, translate, lang, force) == Ok(None)
    ensures ScanFrom(lines, i, changes, translate, lang, force) == ScanFrom(lines, i + 1, changes, translate, lang, force)
  {
  }

  /** The scan stops with the first error a step reports. */
  lemma ScanStopsOnError(lines: seq<string>, i: nat, changes: nat, translate: Translate, lang: string, force: bool)
    requires i < |lines| && IsMsgid(lines[i])
    ensures SingularStep(lines, i, translate, lang, force).Err? ==>
      ScanFrom(lines, i, changes, translate, lang, force) == Err(SingularStep(lines, i, translate, lang, force).error)
    ensures SingularStep(lines, i, translate, lang, force) == Ok(None) && PluralStep(lines, i, translate, lang, force).Err? ==>
      ScanFrom(lines, i, changes, translate, lang, force) == Err(PluralStep(lines, i, translate, lang, force).error)
  {
  }

  /* ---------------- what the scan promises ---------------- */

  /** What the scanner writes still reads as the slot it is: a `msgstr`
      line is not a `msgstr[0]` line, and a `msgstr[1]` line is not one
      either. */
  lemma SlotLinePrefixes(t: string)
    ensures StartsWith(FormatSlot("msgstr", t), "msgstr") && !StartsWith(FormatSlot("msgstr", t), "msgstr[0]")
    ensures StartsWith(FormatSlot("msgstr[0]", t), "msgstr")
    ensures StartsWith(FormatSlot("msgstr[1]", t), "msgstr") && !StartsWith(FormatSlot("msgstr[1]", t), "msgstr[0]")
  {
    assert FormatSlot("msgstr", t)[6] == ' ';
    assert FormatSlot("msgstr[1]", t)[7] == '1';
    assert FormatSlot("msgstr", t)[..6] == "msgstr";
    assert FormatSlot("msgstr[0]", t)[..6] == "msgstr";
    assert FormatSlot("msgstr[1]", t)[..6] == "msgstr";
  }

  /** Every line at or after `from` that differs between `before` and
      `after` is a slot line afterwards, and was a `msgstr` line before or
      the line after a `msgstr[0]` line (the unchecked fourth line of a
      plural record). Headers and msgid_plural lines in any other place stay. */
  ghost predicate OnlySlotsRewritten(before: seq<string>, after: seq<string>, from: nat)
    requires |before| == |after|
  {
    forall k {:trigger after[k]} :: from <= k < |before| && after[k] != before[k] ==>
      && StartsWith(after[k], "msgstr")
      && (StartsWith(before[k], "msgstr") || (0 < k && StartsWith(before[k - 1], "msgstr[0]")))
  }

  /** A scan rewrites nothing but slot lines: no header, key or comment line
      changes, except a line right after a `msgstr[0]` line. */
  lemma {:induction false} ScanRewritesOnlySlots(lines: seq<string>, i: nat, changes: nat, translate: Translate, lang: string, force: bool)
    requires i <= |lines|
    ensures var r := ScanFrom(lines, i, changes, translate, lang, force);
      r.Ok? ==> OnlySlotsRewritten(lines, r.value.lines, i)
    decreases |lines| - i, 1
  {
    if i == |lines| {
      return;
    }
    if !IsMsgid(lines[i]) {
      ScanRewritesOnlySlots(lines, i + 1, changes, translate, lang, force);
      return;
    }
    var single := SingularStep(lines, i, translate, lang, force);
    if single.Ok? && single.value.Some? {
      SingularScanRewritesOnlySlots(lines, i, changes, translate, lang, force);
      return;
    }
    if single.Ok? {
      var plural := PluralStep(lines, i, translate, lang, force);
      if plural.Ok? && plural.value.Some? {
        PluralScanRewritesOnlySlots(lines, i, changes, translate, lang, force);
      } else if plural.Ok? {
        ScanRewritesOnlySlots(lines, i + 1, changes, translate, lang, force);
      }
    }
  }

  /** ScanRewritesOnlySlots when the scan translates a singular record at `i`. */
  lemma {:induction false} SingularScanRewritesOnlySlots(lines: seq<string>, i: nat, changes: nat, translate: Translate, lang: string, force: bool)
    requires i < |lines| && IsMsgid(lines[i])
    requires SingularStep(lines, i, translate, lang, force).Ok? && SingularStep(lines, i, translate, lang, force).value.Some?
    ensures var r := ScanFrom(lines, i, changes, translate, lang, force);
      r.Ok? ==> OnlySlotsRewritten(lines, r.value.lines, i)
    decreases |lines| - i, 0
  {
    var next := SingularStep(lines, i, translate, lang, force).value.value;
    var r := ScanFrom(next, i + 2, changes + 1, translate, lang, force);
    assert ScanFrom(lines, i, changes, translate, lang, force) == r;
    ScanRewritesOnlySlots(next, i + 2, changes + 1, translate, lang, force);
    if r.Ok? {
      SingularRewriteThenRest(lines, i, next, r.value.lines, translate(ExtractPoString(lines[i]).value, lang).value);
    }
  }

  /** ScanRewritesOnlySlots when the scan translates a plural record at `i`. */
  lemma {:induction false} PluralScanRewritesOnlySlots(lines: seq<string>, i: nat, changes: nat, translate: Translate, lang: string, force: bool)
    requires i < |lines| && IsMsgid(lines[i])
    requires SingularStep(lines, i, translate, lang, force) == Ok(None)
    requires PluralStep(lines, i, translate, lang, force).Ok? && PluralStep(lines, i, translate, lang, force).value.Some?
    ensures var r := ScanFrom(lines, i, changes, translate, lang, force);
      r.Ok? ==> OnlySlotsRewritten(lines, r.value.lines, i)
    decreases |lines| - i, 0
  {
    var next := PluralStep(lines, i, translate, lang, force).value.value;
    var r := ScanFrom(next, i + 4, changes + 1, translate, lang, force);
    assert ScanFrom(lines, i, changes, translate, lang, force) == r;
    ScanRewritesOnlySlots(next, i + 4, changes + 1, translate, lang, force);
    if r.Ok? {
      PluralRewriteThenRest(lines, i, next, r.value.lines, translate(ExtractPoString(lines[i + 1]).value, lang).value);
    }
  }

  /** One singular rewrite at `i + 1`, then rewrites from `i + 2` on. */
  lemma SingularRewriteThenRest(lines: seq<string>, i: nat, next: seq<string>, after: seq<string>, t: string)
    requires SingularShape(lines, i) && next == lines[i + 1 := FormatSlot("msgstr", t)]
    requires |after| == |next| && forall k :: 0 <= k < i + 2 ==> after[k] == next[k]
    requires OnlySlotsRewritten(next, after, i + 2)
    ensures OnlySlotsRewritten(lines, after, i)
  {
    SlotLinePrefixes(t);
    forall k | i <= k < |lines| && after[k] != lines[k]
      ensures StartsWith(after[k], "msgstr")
      ensures StartsWith(lines[k], "msgstr") || (0 < k && StartsWith(lines[k - 1], "msgstr[0]"))
    {
      if k >= i + 2 {
        assert next[k] == lines[k] && after[k] != next[k];
        assert StartsWith(next[k], "msgstr") || StartsWith(next[k - 1], "msgstr[0]");
        if k - 1 != i + 1 {
          assert next[k - 1] == lines[k - 1];
        }
      }
    }
  }

  /** One plural rewrite at `i + 2` and `i + 3`, then rewrites from `i + 4` on. */
  lemma PluralRewriteThenRest(lines: seq<string>, i: nat, next: seq<string>, after: seq<string>, t: string)
    requires PluralShape(lines, i)
    requires next == lines[i + 2 := FormatSlot("msgstr[0]", t)][i + 3 := FormatSlot("msgstr[1]", t)]
    requires |after| == |next| && forall k :: 0 <= k < i + 4 ==> after[k] == next[k]
    requires OnlySlotsRewritten(next, after, i + 4)
    ensures OnlySlotsRewritten(lines, after, i)
  {
    SlotLinePrefixes(t);
    forall k | i <= k < |lines| && after[k] != lines[k]
      ensures StartsWith(after[k], "msgstr")
      ensures StartsWith(lines[k], "msgstr") || (0 < k && StartsWith(lines[k - 1], "msgstr[0]"))
    {
      if k >= i + 4 {
        assert next[k] == lines[k] && after[k] != next[k];
        assert StartsWith(next[k], "msgstr") || StartsWith(next[k - 1], "msgstr[0]");
        if k - 1 != i + 3 {
          assert next[k - 1] == lines[k - 1];
        }
      } else if k == i + 2 {
        assert StartsWith(lines[k], "msgstr[0]");
        assert lines[k][..6] == lines[k][..9][..6];
      }
    }
  }

  /** A scan that counts no change leaves every line as it was. */
  lemma {:induction false} NoChangesMeansSameLines(lines: seq<string>, i: nat, changes: nat, translate: Translate, lang: string, force: bool)
    requires i <= |lines|
    ensures var r := ScanFrom(lines, i, changes, translate, lang, force);
      r.Ok? && r.value.changes == changes ==> r.value.lines == lines
    decreases |lines| - i
  {
    if i < |lines| && (!IsMsgid(lines[i]) || (SingularStep(lines, i, translate, lang, force) == Ok(None)
                                             && PluralStep(lines, i, translate, lang, force) == Ok(None))) {
      NoChangesMeansSameLines(lines, i + 1, changes, translate, lang, force);
    }
  }

  /** The record headed at `k` has every slot filled and every payload the
      scanner reads well-formed. */
  ghost predicate RecordComplete(lines: seq<string>, k: nat)
    requires k < |lines|
  {
    && (SingularShape(lines, k) ==>
          ExtractPoString(lines[k]).Ok? && ExtractPoString(lines[k + 1]).Ok? && ExtractPoString(lines[k + 1]).value != [])
    && (PluralShape(lines, k) ==>
          && ExtractPoString(lines[k + 1]).Ok?
          && ExtractPoString(lines[k + 2]).Ok? && ExtractPoString(lines[k + 2]).value != []
          && ExtractPoString(lines[k + 3]).Ok? && ExtractPoString(lines[k + 3]).value != [])
  }

  /** Every record the scanner can recognise is already translated. */
  ghost predicate Complete(lines: seq<string>)
  {
    forall k :: 0 <= k < |lines| && IsMsgid(lines[k]) ==> RecordComplete(lines, k)
  }

  /** Without force, a complete catalog is left exactly as it is, with no
      change counted and no translation requested. */
  lemma {:induction false} CompleteCatalogUnchanged(lines: seq<string>, i: nat, changes: nat, translate: Translate, lang: string)
    requires i <= |lines| && Complete(lines)
    ensures ScanFrom(lines, i, changes, translate, lang, false) == Ok(Scan(lines, changes))
    decreases |lines| - i
  {
    if i < |lines| {
      CompleteCatalogUnchanged(lines, i + 1, changes, translate, lang);
    }
  }

  /** The number of records a forced scan of `s` translates, found by the
      cursor moves alone. */
  function RecordCount(s: seq<string>): (n: nat)
    ensures 2 * n <= |s|
  {
    if |s| == 0 then 0
    else if IsMsgid(s[0]) && SingularShape(s, 0) then 1 + RecordCount(s[2..])
    else if IsMsgid(s[0]) && PluralShape(s, 0) then 1 + RecordCount(s[4..])
    else RecordCount(s[1..])
  }

  /** Every payload a forced scan of `s` reads is well-formed. */
  ghost predicate Extractable(s: seq<string>)
  {
    if |s| == 0 then true
    else if IsMsgid(s[0]) && SingularShape(s, 0) then
      ExtractPoString(s[0]).Ok? && ExtractPoString(s[1]).Ok? && Extractable(s[2..])
    else if IsMsgid(s[0]) && PluralShape(s, 0) then
      ExtractPoString(s[1]).Ok? && ExtractPoString(s[2]).Ok? && ExtractPoString(s[3]).Ok? && Extractable(s[4..])
    else Extractable(s[1..])
  }

  /** With force on and a service that always answers, every recognised
      record is translated, whatever its slots held: the count of changes is
      the number of records. */
  lemma {:induction false} ForcedScanCountsRecords(lines: seq<string>, i: nat, changes: nat, translate: Translate, lang: string)
    requires i <= |lines|
    requires forall m :: translate(m, lang).Ok?
    requires Extractable(lines[i..])
    ensures ScanFrom(lines, i, changes, translate, lang, true).Ok?
    ensures ScanFrom(lines, i, changes, translate, lang, true).value.changes == changes + RecordCount(lines[i..])
    decreases |lines| - i
  {
    var s := lines[i..];
    if i < |lines| {
      assert s[0] == lines[i];
      if IsMsgid(lines[i]) && SingularShape(lines, i) {
        assert SingularShape(s, 0);
        var next := SingularStep(lines, i, translate, lang, true).value.value;
        assert next[i + 2..] == s[2..];
        ForcedScanCountsRecords(next, i + 2, changes + 1, translate, lang);
      } else if IsMsgid(lines[i]) && PluralShape(lines, i) {
        assert !SingularShape(s, 0) && PluralShape(s, 0);
        var next := PluralStep(lines, i, translate, lang, true).value.value;
        assert next[i + 4..] == s[4..];
        ForcedScanCountsRecords(next, i + 4, changes + 1, translate, lang);
      } else {
        assert !(IsMsgid(s[0]) && SingularShape(s, 0)) && !(IsMsgid(s[0]) && PluralShape(s, 0));
        assert lines[i + 1..] == s[1..];
        ForcedScanCountsRecords(lines, i + 1, changes, translate, lang);
      }
    }
  }

  /* ---------------- reading and writing a file's text ---------------- */

  /** A line without the '\r' of a "\r\n" ending. */
  function StripCarriageReturn(line: string): string
  {
    if line != [] && line[|line| - 1] == '\r' then line[..|line| - 1] else line
  }

  /** `str::lines`: split at "\n" or "\r\n"; a final line ending adds no
      empty last line; a lone '\r' at the very end stays. */
  function Lines(content: string): (ls: seq<string>)
    ensures content != [] ==> ls != []
    decreases |content|
  {
    if content == [] then []
    else
      match FindChar(content, '\n')
      case None => [content]
      case Some(k) => [StripCarriageReturn(content[..k])] + Lines(content[k + 1..])
  }

  /** `lines.join("\n")` */
  function Join(ls: seq<string>): string
  {
    if |ls| == 0 then [] else if |ls| == 1 then ls[0] else ls[0] + "\n" + Join(ls[1..])
  }

  /** A line the writer can give back unchanged through Lines: no newline
      inside, no '\r' at its end. */
  predicate PlainLine(line: string)
  {
    '\n' !in line && (line == [] || line[|line| - 1] != '\r')
  }

  /** Splitting what was joined gives back the lines, provided the last one
      is not empty. */
  lemma {:induction false} LinesOfJoin(ls: seq<string>)
    requires forall k :: 0 <= k < |ls| ==> PlainLine(ls[k])
    requires ls == [] || ls[|ls| - 1] != []
    ensures Lines(Join(ls)) == ls
    decreases |ls|
  {
    if |ls| == 1 {
      assert PlainLine(ls[0]);
      assert FindChar(ls[0], '\n') == None;
    } else if |ls| > 1 {
      var tail := ls[1..];
      assert PlainLine(ls[0]);
      assert forall k :: 0 <= k < |tail| ==> tail[k] == ls[k + 1];
      LinesOfJoin(tail);
      assert Join(ls) == ls[0] + "\n" + Join(tail);
      LinesCons(ls[0], Join(tail));
      assert ls == [ls[0]] + tail;
    }
  }

  /** A plain line followed by a newline is split off as the first line. */
  lemma LinesCons(line: string, rest: string)
    requires PlainLine(line)
    ensures Lines(line + "\n" + rest) == [line] + Lines(rest)
  {
    var content := line + "\n" + rest;
    FindCharAfter(line, '\n', rest);
    assert content[..|line|] == line;
    assert content[|line| + 1..] == rest;
  }

  /** Joining what was split gives back the text, provided it holds no '\r'
      and does not end in a newline. */
  lemma {:induction false} JoinOfLines(content: string)
    requires '\r' !in content
    requires content == [] || content[|content| - 1] != '\n'
    ensures Join(Lines(content)) == content
    decreases |content|
  {
    if content != [] {
      match FindChar(content, '\n')
      case None =>
      case Some(k) =>
        var rest := content[k + 1..];
        assert content[..k] + "\n" + rest == content;
        assert rest != [] && rest[|rest| - 1] == content[|content| - 1];
        JoinOfLines(rest);
    }
  }

  /** A final newline is not a line: a file that ends in one is written
      back without it. */
  lemma TrailingNewlineDropped(content: string)
    requires PlainLine(content) && content != []
    ensures Lines(content + "\n") == Lines(content) == [content]
  {
    var c := content + "\n";
    FindCharAfter(content, '\n', []);
    assert content + "\n" + [] == c;
    assert c[..|content|] == content;
    assert c[|content| + 1..] == [];
  }

  /** What `process_po_file` decides for one file: the lines after the scan,
      the number of records changed, and the text written back, if any. */
  datatype PoOutcome = PoOutcome(lines: seq<string>, changes: nat, written: Option<string>)

  /** `process_po_file` without the file system: the content is split into
      lines, scanned in place, and written back (joined by "\n") only when
      some record changed and this is not a dry run. A dry run still edits
      the lines in memory. */
  method ProcessPoFile(content: string, translate: Translate, lang: string, dryRun: bool, force: bool)
    returns (r: Result<PoOutcome>)
    ensures match ScanFrom(Lines(content), 0, 0, translate, lang, force)
            case Err(e) => r == Err(e)
            case Ok(scan) =>
              r == Ok(PoOutcome(scan.lines, scan.changes,
                                if scan.changes > 0 && !dryRun then Some(Join(scan.lines)) else None))
  {
    var initial := Lines(content);
    var lines := new string[|initial|](k requires 0 <= k < |initial| => initial[k]);
    assert lines[..] == initial;
    var scanned := ScanLines(lines, translate, lang, force);
    if scanned.Err? {
      return Err(scanned.error);
    }
    var changes := scanned.value;
    var written: Option<string> := None;
    if changes > 0 {
      if !dryRun {
        written := Some(Join(lines[..]));
      }
    }
    return Ok(PoOutcome(lines[..], changes, written));
  }

  /** A complete catalog, without force, is never written: no change is
      counted and the lines stay as read. */
  lemma CompleteCatalogNotWritten(content: string, translate: Translate, lang: string)
    requires Complete(Lines(content))
    ensures ScanFrom(Lines(content), 0, 0, translate, lang, false) == Ok(Scan(Lines(content), 0))
  {
    CompleteCatalogUnchanged(Lines(content), 0, 0, translate, lang);
  }
}

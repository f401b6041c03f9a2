/** Composition of the generation request's parts (src/App.tsx:855-882). */
module PromptComposer {
  import opened JsText

  /** The three languages a page can be generated in. */
  datatype Lang = Pt | En | Es

  /** The display names of `langNames`. */
  function LangName(l: Lang): string {
    match l
    case Pt => "Português (Brasil)"
    case En => "Inglês (EN-US)"
    case Es => "Espanhol (ES-ES)"
  }

  /** The code used in file names (`pt`, `en`, `es`). */
  function LangCode(l: Lang): string {
    match l
    case Pt => "pt"
    case En => "en"
    case Es => "es"
  }

  /** The brand settings that feed a prompt. `pdfBase64` is the attached
      reference document, the empty string when none is attached. */
  datatype BrandConfig = BrandConfig(
    primaryBlue: string,
    primaryGold: string,
    description: string,
    pdfBase64: string,
    pdfName: string,
    systemPrompt: string)

  /** A prompt part: text, or an inline binary attachment. */
  datatype Part = TextPart(text: string) | InlineData(mimeType: string, data: string)

  const PdfMimeType: string := "application/pdf"

  /** The fixed wording of the prompt's template literal, piece by piece.
      The composer and its lemmas are stated for any wording; `AppTemplate`
      is the one the application uses. */
  datatype PromptTemplate = PromptTemplate(
    markdownHeading: string,
    brandingHeading: string,
    coloursLabel: string,
    goldLabel: string,
    coloursEnd: string,
    languageLabel: string,
    translationLead: string,
    translationEnd: string,
    instructionHeading: string,
    templateEnd: string,
    pdfInstruction: string)

  const AppTemplate: PromptTemplate := PromptTemplate(
    "\n        Markdown de entrada:\n        ",
    "\n\n        Diretrizes de Branding:\n        ",
    "\n        Cores: Azul (",
    "), Dourado (",
    ")\n\n        ",
    "IDIOMA DA PÁGINA: ",
    "\n        TRADUÇÃO: Traduza todo o conteúdo do Markdown fielmente para o idioma ",
    ", mantendo a precisão técnica.",
    "\n\n        INSTRUÇÃO DE GERAÇÃO:\n        ",
    "\n      ",
    "\n\nIMPORTANTE: Siga rigorosamente a identidade visual e diretrizes contidas no PDF de branding anexado.")

  /** The two lines that fix the page language and demand a faithful translation. */
  function TranslationDirective(tpl: PromptTemplate, l: Lang): string {
    tpl.languageLabel + LangName(l) + tpl.translationLead + LangName(l) + tpl.translationEnd
  }

  /** The template text before the language lines: markdown, brand
      description and the two colours. */
  function Preamble(tpl: PromptTemplate, markdown: string, brand: BrandConfig): string {
    tpl.markdownHeading + markdown + BrandLines(tpl, brand)
  }

  function BrandLines(tpl: PromptTemplate, brand: BrandConfig): string {
    tpl.brandingHeading + brand.description
    + tpl.coloursLabel + brand.primaryBlue + tpl.goldLabel + brand.primaryGold + tpl.coloursEnd
  }

  /** The template literal of the first part, before any PDF sentence. */
  function BaseText(tpl: PromptTemplate, markdown: string, brand: BrandConfig, l: Lang): string {
    Preamble(tpl, markdown, brand) + TranslationDirective(tpl, l) + tpl.instructionHeading
    + brand.systemPrompt + tpl.templateEnd
  }

  /** The `parts` array: one text part, then the PDF attachment when the
      brand has one (a truthy `pdfBase64`), in which case the text part also
      gets the PDF sentence at its end. */
  function ComposeParts(tpl: PromptTemplate, markdown: string, brand: BrandConfig, l: Lang): (parts: seq<Part>)
    ensures |parts| == if Truthy(brand.pdfBase64) then 2 else 1
    ensures parts[0].TextPart?
    ensures forall i :: 1 <= i < |parts| ==> parts[i] == InlineData(PdfMimeType, brand.pdfBase64)
    ensures Truthy(brand.pdfBase64) ==> EndsWith(parts[0].text, tpl.pdfInstruction)
  {
    var base := BaseText(tpl, markdown, brand, l);
    if Truthy(brand.pdfBase64) then
      EndsWithAppended(base, tpl.pdfInstruction);
      [TextPart(base + tpl.pdfInstruction), InlineData(PdfMimeType, brand.pdfBase64)]
    else
      [TextPart(base)]
  }

  lemma {:induction false} EndsWithAppended(x: string, y: string)
    ensures EndsWith(x + y, y)
  {
    assert (x + y)[|x + y| - |y|..] == y;
  }

  /** The application's wording ends the template with a space and the PDF
      sentence with a full stop. */
  lemma AppTemplateEndings()
    ensures |AppTemplate.templateEnd| > 0 && AppTemplate.templateEnd[|AppTemplate.templateEnd| - 1] == ' '
    ensures |AppTemplate.pdfInstruction| > 0
            && AppTemplate.pdfInstruction[|AppTemplate.pdfInstruction| - 1] == '.'
  {
  }

  /** With the application's wording the PDF sentence ends the text part
      exactly when a PDF is attached. */
  lemma {:induction false} PdfSentenceIffAttached(markdown: string, brand: BrandConfig, l: Lang)
    ensures EndsWith(ComposeParts(AppTemplate, markdown, brand, l)[0].text, AppTemplate.pdfInstruction)
            <==> Truthy(brand.pdfBase64)
  {
    if !Truthy(brand.pdfBase64) {
      var tpl := AppTemplate;
      AppTemplateEndings();
      var x := Preamble(tpl, markdown, brand) + TranslationDirective(tpl, l) + tpl.instructionHeading + brand.systemPrompt;
      assert BaseText(tpl, markdown, brand, l) == x + tpl.templateEnd;
      LastOfConcat(x, tpl.templateEnd);
      DifferentLastChar(x + tpl.templateEnd, tpl.pdfInstruction);
    }
  }

  lemma {:induction false} LastOfConcat(x: string, y: string)
    requires |y| > 0
    ensures (x + y)[|x + y| - 1] == y[|y| - 1]
  {
  }

  lemma {:induction false} DifferentLastChar(s: string, suffix: string)
    requires |s| > 0 && |suffix| > 0 && s[|s| - 1] != suffix[|suffix| - 1]
    ensures !EndsWith(s, suffix)
  {
    assert |s| < |suffix| || s[|s| - |suffix|..][|suffix| - 1] == s[|s| - 1];
  }

  /** Attaching a PDF changes the text part only by appending the PDF sentence. */
  lemma {:induction false} PdfOnlyAppends(tpl: PromptTemplate, markdown: string, brand: BrandConfig, l: Lang)
    requires Truthy(brand.pdfBase64)
    ensures ComposeParts(tpl, markdown, brand, l)[0].text
            == ComposeParts(tpl, markdown, brand.(pdfBase64 := ""), l)[0].text + tpl.pdfInstruction
  {
    assert BaseText(tpl, markdown, brand, l) == BaseText(tpl, markdown, brand.(pdfBase64 := ""), l);
  }

  /** In the text part the markdown comes first, the language and translation
      lines next, and the style instructions (`systemPrompt`) after them, so
      the style block cannot come before the translation requirement. */
  lemma {:induction false} LanguageBeforeStyle(tpl: PromptTemplate, markdown: string, brand: BrandConfig, l: Lang)
    ensures var text := ComposeParts(tpl, markdown, brand, l)[0].text;
      exists i, j, k ::
        && OccursAt(text, markdown, i)
        && OccursAt(text, TranslationDirective(tpl, l), j)
        && OccursAt(text, brand.systemPrompt, k)
        && i + |markdown| <= j && j + |TranslationDirective(tpl, l)| <= k
  {
    var text := ComposeParts(tpl, markdown, brand, l)[0].text;
    var pre := Preamble(tpl, markdown, brand);
    var dir := TranslationDirective(tpl, l);
    TextPartLayout(tpl, markdown, brand, l);
    PreambleLayout(tpl.markdownHeading, markdown, BrandLines(tpl, brand), text);
    assert OccursAt(text, markdown, |tpl.markdownHeading|);
    assert OccursAt(text, dir, |pre|);
    assert OccursAt(text, brand.systemPrompt, |pre| + |dir| + |tpl.instructionHeading|);
  }

  lemma {:induction false} TextPartLayout(tpl: PromptTemplate, markdown: string, brand: BrandConfig, l: Lang)
    ensures var text, pre, dir := ComposeParts(tpl, markdown, brand, l)[0].text, Preamble(tpl, markdown, brand), TranslationDirective(tpl, l);
      && |pre| <= |text| && text[..|pre|] == pre
      && OccursAt(text, dir, |pre|)
      && OccursAt(text, brand.systemPrompt, |pre| + |dir| + |tpl.instructionHeading|)
  {
    var text := ComposeParts(tpl, markdown, brand, l)[0].text;
    var pre := Preamble(tpl, markdown, brand);
    var dir := TranslationDirective(tpl, l);
    var core := pre + dir + tpl.instructionHeading + brand.systemPrompt;
    assert text == core + tpl.templateEnd || text == core + tpl.templateEnd + tpl.pdfInstruction;
    CoreLayout(pre, dir, tpl.instructionHeading, brand.systemPrompt, core, text);
  }

  lemma {:induction false} CoreLayout(pre: string, dir: string, heading: string, style: string, core: string, text: string)
    requires core == pre + dir + heading + style
    requires |core| <= |text| && text[..|core|] == core
    ensures |pre| <= |text| && text[..|pre|] == pre
    ensures OccursAt(text, dir, |pre|)
    ensures OccursAt(text, style, |pre| + |dir| + |heading|)
  {
    var k := |pre| + |dir| + |heading|;
    assert core[..|pre|] == pre;
    assert core[|pre|..|pre| + |dir|] == dir;
    assert core[k..k + |style|] == style;
  }

  lemma {:induction false} PreambleLayout(head: string, markdown: string, rest: string, text: string)
    requires |head + markdown + rest| <= |text| && text[..|head + markdown + rest|] == head + markdown + rest
    ensures OccursAt(text, markdown, |head|)
  {
    var pre := head + markdown + rest;
    assert text[|head|..|head| + |markdown|] == pre[|head|..|head| + |markdown|];
  }
}

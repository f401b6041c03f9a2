/** The file name of a downloaded page (src/App.tsx:723): a final
    extension, as matched by `/\.[^/.]+$/`, is removed and `.html` appended. */
module DownloadName {
  import opened JsText

  /** A character the extension pattern `[^/.]` accepts. */
  predicate InExtension(c: char) {
    c != '.' && c != '/'
  }

  /** `t` is what `\.[^/.]+` matches in full: a dot and at least one character
      that is neither a dot nor a slash. */
  predicate IsExtension(t: string) {
    |t| >= 2 && t[0] == '.' && forall j :: 1 <= j < |t| ==> InExtension(t[j])
  }

  /** The length of the longest suffix of `s` made of extension characters. */
  function CleanTail(s: string): (n: nat)
    ensures n <= |s|
    ensures forall j :: |s| - n <= j < |s| ==> InExtension(s[j])
    ensures n < |s| ==> !InExtension(s[|s| - n - 1])
    decreases |s|
  {
    if |s| == 0 || !InExtension(s[|s| - 1]) then 0
    else
      var n := CleanTail(s[..|s| - 1]);
      assert forall j :: |s| - 1 - n <= j < |s| - 1 ==> s[..|s| - 1][j] == s[j];
      1 + n
  }

  /** `name.replace(/\.[^/.]+$/, "")`: the extension ending the name, if
      any, is removed; otherwise the name is unchanged. */
  function StripExtension(s: string): (r: string)
    ensures |r| <= |s| && r == s[..|r|]
    ensures |r| < |s| ==> IsExtension(s[|r|..])
    ensures |r| == |s| ==> forall k :: 0 <= k < |s| ==> !IsExtension(s[k..])
  {
    var t := CleanTail(s);
    if 0 < t < |s| && s[|s| - t - 1] == '.' then
      s[..|s| - t - 1]
    else
      NoExtensionWhenNotStripped(s, t);
      s
  }

  lemma {:induction false} NoExtensionWhenNotStripped(s: string, t: nat)
    requires t == CleanTail(s)
    requires !(0 < t < |s| && s[|s| - t - 1] == '.')
    ensures forall k :: 0 <= k < |s| ==> !IsExtension(s[k..])
  {
    forall k | 0 <= k < |s| && IsExtension(s[k..]) ensures false {
    }
  }

  /** At most one suffix of a name is an extension, so the first match of
      the pattern is the only one. */
  lemma {:induction false} ExtensionIsUnique(s: string, a: nat, b: nat)
    requires a < b < |s|
    requires IsExtension(s[a..])
    ensures !IsExtension(s[b..])
  {
    assert s[b..][0] == s[a..][b - a];
  }

  /** The `download` attribute: the stripped name with `.html` appended. */
  function DownloadName(name: string): (r: string)
    ensures EndsWith(r, ".html")
    ensures StartsWith(r, StripExtension(name))
    ensures |r| == |StripExtension(name)| + |".html"|
  {
    var stem := StripExtension(name);
    assert (stem + ".html")[..|stem|] == stem;
    assert (stem + ".html")[|stem|..] == ".html";
    stem + ".html"
  }

  /** `.html` is itself an extension, so downloading under a name already
      produced by the rule gives the same name again. */
  lemma {:induction false} DownloadNameIdempotent(name: string)
    ensures DownloadName(DownloadName(name)) == DownloadName(name)
  {
    var stem := StripExtension(name);
    HtmlIsExtension();
    ReplacesExtension(stem, "html");
    assert stem + "." + "html" == stem + ".html";
  }

  lemma {:induction false} HtmlIsExtension()
    ensures "." + "html" == ".html"
    ensures forall j :: 0 <= j < |"html"| ==> InExtension("html"[j])
  {
  }

  /** A name `base.ext` whose `ext` holds no dot or slash becomes `base.html`. */
  lemma {:induction false} ReplacesExtension(base: string, ext: string)
    requires |ext| > 0 && forall j :: 0 <= j < |ext| ==> InExtension(ext[j])
    ensures DownloadName(base + "." + ext) == base + ".html"
  {
    var s := base + "." + ext;
    assert IsExtension(s[|base|..]) by {
      assert s[|base|..] == "." + ext;
    }
    var r := StripExtension(s);
    if |r| < |base| {
      ExtensionIsUnique(s, |r|, |base|);
    } else if |r| > |base| {
      ExtensionIsUnique(s, |base|, |r|);
    }
    assert r == s[..|base|] == base;
  }

  /** A name with no dot keeps all of it and gains `.html`. */
  lemma {:induction false} NoDotAppendsHtml(name: string)
    requires forall j :: 0 <= j < |name| ==> name[j] != '.'
    ensures DownloadName(name) == name + ".html"
  {
    var r := StripExtension(name);
  }

  /** A dot inside a directory-like part is not an extension: the pattern
      cannot cross a slash. */
  lemma {:induction false} SlashStopsExtension(dir: string, file: string)
    requires |file| > 0 && forall j :: 0 <= j < |file| ==> file[j] != '.'
    ensures DownloadName(dir + "." + "/" + file) == dir + "./" + file + ".html"
  {
    var s := dir + "." + "/" + file;
    forall k | 0 <= k < |s| ensures !IsExtension(s[k..]) {
      if k <= |dir| + 1 {
        assert s[k..][|dir| + 1 - k] == '/';
      } else {
        assert s[k..][0] == file[k - |dir| - 2];
      }
    }
    assert dir + "." + "/" + file == dir + "./" + file;
  }
}

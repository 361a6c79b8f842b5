/**
  The keyword rules that put an application or a site into a category:
  `categorize` of activitytracker/gen_report.py and the older, smaller one of
  activitytracker/tracker.py.  Each is written as the source's chain of
  tests and proved equal to "the first rule of a table whose keyword occurs".
 */
module Categories {
  import opened Opt
  import opened Text

  datatype Category =
    | Entertainment | Development | Communication | Research | Documentation
    | Browsing | Productivity | Gaming | System | Other

  /** `x.lower() if x else ''`: a missing value and the empty string fold alike. */
  function Fold(x: Option<string>): string {
    if x.Some? then Lower(x.value) else ""
  }

  /** `categorize(app, site)` in gen_report.py: both arguments lower-cased first. */
  function Categorize(app: Option<string>, site: Option<string>): Category {
    Classify(Fold(app), Fold(site))
  }

  /** The chain of tests of gen_report.py's `categorize`, on the lower-cased arguments. */
  function Classify(app: string, site: string): Category {
    if app == "chrome.exe" then
      if Contains(site, "youtube") then Entertainment
      else if Contains(site, "stackoverflow") || Contains(site, "github") || Contains(site, "gitlab") then Development
      else if Contains(site, "mail") || Contains(site, "gmail") then Communication
      else if Contains(site, "deepseek") || Contains(site, "chat.openai") then Research
      else if Contains(site, "report") then Documentation
      else Browsing
    else if Contains(app, "code") then Development
    else if Contains(app, "pycharm") then Development
    else if Contains(app, "word") || Contains(app, "excel") then Productivity
    else if Contains(app, "game") then Gaming
    else if Contains(app, "explorer") || Contains(app, "framehost") then System
    else Other
  }

  /** `categorize(app, site)` in tracker.py: `chrome.exe` and the site keywords are matched as written. */
  function TrackerCategorize(app: string, site: string): Category {
    if app == "chrome.exe" then
      if Contains(site, "youtube") then Entertainment
      else if Contains(site, "stackoverflow") || Contains(site, "github") then Development
      else if Contains(site, "gmail") || Contains(site, "mail") then Communication
      else Browsing
    else if Contains(Lower(app), "code") then Development
    else if Contains(Lower(app), "word") || Contains(Lower(app), "excel") then Productivity
    else if Contains(Lower(app), "game") then Gaming
    else Other
  }

  /** A category and the keywords that select it. */
  datatype Rule = Rule(keywords: seq<string>, category: Category)

  const ChromeRules: seq<Rule> := [
    Rule(["youtube"], Entertainment),
    Rule(["stackoverflow", "github", "gitlab"], Development),
    Rule(["mail", "gmail"], Communication),
    Rule(["deepseek", "chat.openai"], Research),
    Rule(["report"], Documentation)]

  const AppRules: seq<Rule> := [
    Rule(["code"], Development),
    Rule(["pycharm"], Development),
    Rule(["word", "excel"], Productivity),
    Rule(["game"], Gaming),
    Rule(["explorer", "framehost"], System)]

  const TrackerChromeRules: seq<Rule> := [
    Rule(["youtube"], Entertainment),
    Rule(["stackoverflow", "github"], Development),
    Rule(["gmail", "mail"], Communication)]

  const TrackerAppRules: seq<Rule> := [
    Rule(["code"], Development),
    Rule(["word", "excel"], Productivity),
    Rule(["game"], Gaming)]

  /** Some keyword occurs in `s`. */
  function AnyIn(keywords: seq<string>, s: string): bool
    decreases |keywords|
  {
    if keywords == [] then false else Contains(s, keywords[0]) || AnyIn(keywords[1..], s)
  }

  lemma {:induction false} AnyInMeans(keywords: seq<string>, s: string)
    ensures AnyIn(keywords, s) <==> exists i :: 0 <= i < |keywords| && Contains(s, keywords[i])
    decreases |keywords|
  {
    if keywords != [] {
      AnyInMeans(keywords[1..], s);
      assert forall i :: 1 <= i < |keywords| ==> keywords[1..][i - 1] == keywords[i];
    }
  }

  /** No rule's category is `c`. */
  predicate NotAmong(rules: seq<Rule>, c: Category) {
    forall i :: 0 <= i < |rules| ==> rules[i].category != c
  }

  /** Rule `i` matches `s` and no rule before it does. */
  predicate FirstMatchingAt(rules: seq<Rule>, s: string, i: int) {
    && 0 <= i < |rules|
    && AnyIn(rules[i].keywords, s)
    && forall j :: 0 <= j < i ==> !AnyIn(rules[j].keywords, s)
  }

  /** The category of the first rule that matches `s`, or `default`. */
  function FirstMatch(rules: seq<Rule>, s: string, default: Category): Category
    decreases |rules|
  {
    if rules == [] then default
    else if AnyIn(rules[0].keywords, s) then rules[0].category
    else FirstMatch(rules[1..], s, default)
  }

  /**
    When `default` is no rule's category, `FirstMatch` gives it exactly when
    no rule matches, and otherwise the category of the first matching rule.
   */
  lemma {:induction false} FirstMatchMeans(rules: seq<Rule>, s: string, default: Category)
    requires NotAmong(rules, default)
    ensures FirstMatch(rules, s, default) == default <==> forall i :: 0 <= i < |rules| ==> !AnyIn(rules[i].keywords, s)
    ensures FirstMatch(rules, s, default) != default ==>
      exists i :: FirstMatchingAt(rules, s, i) && rules[i].category == FirstMatch(rules, s, default)
    decreases |rules|
  {
    if rules != [] {
      if AnyIn(rules[0].keywords, s) {
        assert FirstMatchingAt(rules, s, 0);
      } else {
        var tail := rules[1..];
        assert forall i :: 1 <= i < |rules| ==> tail[i - 1] == rules[i];
        FirstMatchMeans(tail, s, default);
        var c := FirstMatch(rules, s, default);
        if c != default {
          var i :| FirstMatchingAt(tail, s, i) && tail[i].category == c;
          assert FirstMatchingAt(rules, s, i + 1);
        }
      }
    }
  }

  /** A one-keyword and a two-keyword list: some keyword occurs. */
  lemma AnyInShort(a: string, b: string, s: string)
    ensures AnyIn([a], s) == Contains(s, a)
    ensures AnyIn([a, b], s) == (Contains(s, a) || Contains(s, b))
  {
    assert [a][1..] == [];
    assert [b][1..] == [];
    assert AnyIn([b], s) == Contains(s, b);
    assert [a, b][1..] == [b];
  }

  /** A three-keyword list: some keyword occurs. */
  lemma AnyInThree(a: string, b: string, c: string, s: string)
    ensures AnyIn([a, b, c], s) == (Contains(s, a) || Contains(s, b) || Contains(s, c))
  {
    assert [a, b, c][1..] == [b, c];
    AnyInShort(b, c, s);
  }

  /** A table of three rules, read top to bottom. */
  lemma FirstMatchThree(r1: Rule, r2: Rule, r3: Rule, s: string, d: Category)
    ensures FirstMatch([r1, r2, r3], s, d) ==
      if AnyIn(r1.keywords, s) then r1.category
      else if AnyIn(r2.keywords, s) then r2.category
      else if AnyIn(r3.keywords, s) then r3.category
      else d
  {
    assert [r3][1..] == [];
    assert FirstMatch([r3], s, d) == if AnyIn(r3.keywords, s) then r3.category else d;
    assert [r2, r3][1..] == [r3];
    assert [r1, r2, r3][1..] == [r2, r3];
  }

  /** A table of five rules, read top to bottom. */
  lemma FirstMatchFive(r1: Rule, r2: Rule, r3: Rule, r4: Rule, r5: Rule, s: string, d: Category)
    ensures FirstMatch([r1, r2, r3, r4, r5], s, d) ==
      if AnyIn(r1.keywords, s) then r1.category
      else if AnyIn(r2.keywords, s) then r2.category
      else FirstMatch([r3, r4, r5], s, d)
  {
    assert [r2, r3, r4, r5][1..] == [r3, r4, r5];
    assert [r1, r2, r3, r4, r5][1..] == [r2, r3, r4, r5];
  }

  /** gen_report.py's Chrome branch is the Chrome table read top to bottom. */
  lemma ChromeChain(s: string)
    ensures FirstMatch(ChromeRules, s, Browsing) ==
      if Contains(s, "youtube") then Entertainment
      else if Contains(s, "stackoverflow") || Contains(s, "github") || Contains(s, "gitlab") then Development
      else if Contains(s, "mail") || Contains(s, "gmail") then Communication
      else if Contains(s, "deepseek") || Contains(s, "chat.openai") then Research
      else if Contains(s, "report") then Documentation
      else Browsing
  {
    FirstMatchFive(ChromeRules[0], ChromeRules[1], ChromeRules[2], ChromeRules[3], ChromeRules[4], s, Browsing);
    FirstMatchThree(ChromeRules[2], ChromeRules[3], ChromeRules[4], s, Browsing);
    AnyInShort("youtube", "", s);
    AnyInThree("stackoverflow", "github", "gitlab", s);
    AnyInShort("mail", "gmail", s);
    AnyInShort("deepseek", "chat.openai", s);
    AnyInShort("report", "", s);
  }

  /** gen_report.py's application branch is the application table read top to bottom. */
  lemma AppChain(a: string)
    ensures FirstMatch(AppRules, a, Other) ==
      if Contains(a, "code") then Development
      else if Contains(a, "pycharm") then Development
      else if Contains(a, "word") || Contains(a, "excel") then Productivity
      else if Contains(a, "game") then Gaming
      else if Contains(a, "explorer") || Contains(a, "framehost") then System
      else Other
  {
    FirstMatchFive(AppRules[0], AppRules[1], AppRules[2], AppRules[3], AppRules[4], a, Other);
    FirstMatchThree(AppRules[2], AppRules[3], AppRules[4], a, Other);
    AnyInShort("code", "", a);
    AnyInShort("pycharm", "", a);
    AnyInShort("word", "excel", a);
    AnyInShort("game", "", a);
    AnyInShort("explorer", "framehost", a);
  }

  /** gen_report.py's chain of tests is the rule table read top to bottom. */
  lemma CategorizeByRules(app: Option<string>, site: Option<string>)
    ensures Categorize(app, site) ==
      if Fold(app) == "chrome.exe" then FirstMatch(ChromeRules, Fold(site), Browsing)
      else FirstMatch(AppRules, Fold(app), Other)
  {
    ChromeChain(Fold(site));
    AppChain(Fold(app));
  }

  /** tracker.py's chain of tests is its smaller rule table read top to bottom. */
  lemma TrackerCategorizeByRules(app: string, site: string)
    ensures TrackerCategorize(app, site) ==
      if app == "chrome.exe" then FirstMatch(TrackerChromeRules, site, Browsing)
      else FirstMatch(TrackerAppRules, Lower(app), Other)
  {
    FirstMatchThree(TrackerChromeRules[0], TrackerChromeRules[1], TrackerChromeRules[2], site, Browsing);
    FirstMatchThree(TrackerAppRules[0], TrackerAppRules[1], TrackerAppRules[2], Lower(app), Other);
    AnyInShort("youtube", "", site);
    AnyInShort("stackoverflow", "github", site);
    AnyInShort("gmail", "mail", site);
    AnyInShort("code", "", Lower(app));
    AnyInShort("word", "excel", Lower(app));
    AnyInShort("game", "", Lower(app));
  }

  /** gen_report.py ignores case in both arguments, and treats a missing value as `""`. */
  lemma CategorizeIgnoresCase(app: string, site: string)
    ensures Categorize(Some(app), Some(site)) == Categorize(Some(Lower(app)), Some(Lower(site)))
    ensures Categorize(None, Some(site)) == Categorize(Some(""), Some(site))
    ensures Categorize(Some(app), None) == Categorize(Some(app), Some(""))
  {
    LowerIdempotent(app);
    LowerIdempotent(site);
    assert Lower("") == "";
  }

  /** Neither table names its own fall-back category. */
  lemma DefaultsNotInTables()
    ensures NotAmong(ChromeRules, Browsing) && NotAmong(AppRules, Other)
  {
  }

  /** The fall-back categories are given exactly when no keyword of the table applies. */
  lemma CategorizeDefaults(app: Option<string>, site: Option<string>)
    ensures Fold(app) == "chrome.exe" ==>
      (Categorize(app, site) == Browsing <==> forall i :: 0 <= i < |ChromeRules| ==> !AnyIn(ChromeRules[i].keywords, Fold(site)))
    ensures Fold(app) != "chrome.exe" ==>
      (Categorize(app, site) == Other <==> forall i :: 0 <= i < |AppRules| ==> !AnyIn(AppRules[i].keywords, Fold(app)))
  {
    CategorizeByRules(app, site);
    DefaultsNotInTables();
    FirstMatchMeans(ChromeRules, Fold(site), Browsing);
    FirstMatchMeans(AppRules, Fold(app), Other);
  }

  /**
    tracker.py compares the process name with `chrome.exe` as written: a
    differently capitalised Chrome is not a browser there and, containing
    none of the application keywords, falls to `Other`.
   */
  lemma TrackerChromeIsCaseSensitive(app: string, site: string)
    requires Lower(app) == "chrome.exe" && app != "chrome.exe"
    ensures TrackerCategorize(app, site) == Other
  {
    var a := Lower(app);
    MissingCharExcludes(a, "code", 2);
    MissingCharExcludes(a, "word", 0);
    MissingCharExcludes(a, "excel", 4);
    MissingCharExcludes(a, "game", 0);
  }

  /** gen_report.py, in contrast, treats any capitalisation of `chrome.exe` as Chrome. */
  lemma ChromeIsCaseInsensitive(app: string, site: Option<string>)
    requires Lower(app) == "chrome.exe"
    ensures Categorize(Some(app), site) == Categorize(Some("chrome.exe"), site)
  {
    LowerIdempotent(app);
  }

}

/**
 * The generator's own steps up to the prompt: the three version lookups,
 * loading the remembered defaults, and `askFor` (starter-theme URL
 * completion, theme-name normalisation and the decision to persist the
 * config), plus the `bootstrap.less` text patch of `configureBootstrap`.
 * The generator instance is a class whose fields the steps assign in turn.
 */
module Generator {
  import opened Wrappers
  import opened JsString
  import opened Versions
  import opened Config

  const WordPressFallback := "3.5.1"
  const BootstrapFallback := "2.3.1"
  const FontAwesomeFallback := "3.0.2"

  /** The theme name the generator starts from and the prompt offers. */
  const StartThemeName := "mytheme"

  // ---------------------------------------------------------------------
  // Remembered defaults
  // ---------------------------------------------------------------------

  /** The prompt defaults `getConfig` derives, and whether the config counts as existing. */
  datatype Defaults = Defaults(authorName: string, authorURI: string, theme: string, configExists: bool)

  /**
   * `getConfig`: start from `''`, `''` and the starter-theme URL, overlay
   * each stored field with `||`, and call the config existing exactly when
   * all three stored fields are non-empty. A read error leaves the
   * starting values and "not existing".
   */
  function LoadDefaults(read: Result<StoredConfig, IoError>): (d: Defaults)
    ensures read.Failure? ==> d == Defaults("", "", DefaultTheme, false)
    ensures read.Ok? ==> d.authorName == read.value.authorName && d.authorURI == read.value.authorURI
    ensures read.Ok? && read.value.theme != "" ==> d.theme == read.value.theme
    ensures read.Ok? && read.value.theme == "" ==> d.theme == DefaultTheme
    ensures d.configExists <==> read.Ok? && Complete(read.value)
    ensures d.theme != ""
  {
    match read
    case Failure(_) => Defaults("", "", DefaultTheme, false)
    case Ok(data) =>
      Defaults(Or(data.authorName, ""), Or(data.authorURI, ""), Or(data.theme, DefaultTheme), Complete(data))
  }

  /**
   * The values `askFor` hands to `createConfig`, or None when it signals
   * completion without writing: a write happens exactly when the prompt
   * succeeded and the config does not exist.
   */
  function PersistDecision(d: Defaults, promptOk: bool): (v: Option<ConfigValues>)
    ensures v.Some? <==> promptOk && !d.configExists
    ensures v.Some? ==> v.value == ConfigValues(d.authorName, d.authorURI, d.theme)
  {
    if promptOk && !d.configExists then Some(ConfigValues(d.authorName, d.authorURI, d.theme)) else None
  }

  /** The config file after `askFor`, given the file before it and the defaults loaded. */
  function ConfigAfterAsk(file: Option<StoredConfig>, d: Defaults, promptOk: bool, writeOk: bool): (r: Option<StoredConfig>)
    ensures r != file ==> promptOk && writeOk && !d.configExists
    ensures promptOk && writeOk && !d.configExists ==> r.Some? && Complete(r.value)
  {
    match PersistDecision(d, promptOk)
    case Some(values) => if writeOk then Some(BuildRecord(values)) else file
    case None => file
  }

  /** The config file after one run of the generator's steps from `getConfig` to `askFor`. */
  function ConfigAfterRun(file: Option<StoredConfig>, promptOk: bool, writeOk: bool): (r: Option<StoredConfig>)
    ensures r != file ==> promptOk && writeOk && r.Some? && Complete(r.value)
  {
    ConfigAfterAsk(file, LoadDefaults(ReadFile(file)), promptOk, writeOk)
  }

  /** A config file whose three fields are all non-empty is never rewritten. */
  lemma CompleteConfigNeverRewritten(file: Option<StoredConfig>, promptOk: bool, writeOk: bool)
    requires file.Some? && Complete(file.value)
    ensures ConfigAfterRun(file, promptOk, writeOk) == file
  {
    assert LoadDefaults(ReadFile(file)).configExists;
  }

  /** A run whose prompt and write succeed leaves a complete config file behind. */
  lemma SuccessfulRunLeavesCompleteConfig(file: Option<StoredConfig>)
    ensures var after := ConfigAfterRun(file, true, true);
            after.Some? && Complete(after.value)
            && LoadDefaults(ReadFile(after)).configExists
  {
    if file.Some? && Complete(file.value) {
      CompleteConfigNeverRewritten(file, true, true);
    }
  }

  /**
   * The whole-system property: after a run that wrote the config, a second
   * run, whatever its prompt and write do, finds the config existing and
   * leaves the file as it is.
   */
  lemma SecondRunNeverWrites(file: Option<StoredConfig>, promptOk: bool, writeOk: bool)
    ensures var first := ConfigAfterRun(file, true, true);
            && LoadDefaults(ReadFile(first)).configExists
            && PersistDecision(LoadDefaults(ReadFile(first)), promptOk).None?
            && ConfigAfterRun(first, promptOk, writeOk) == first
  {
    SuccessfulRunLeavesCompleteConfig(file);
    var first := ConfigAfterRun(file, true, true);
    CompleteConfigNeverRewritten(first, promptOk, writeOk);
  }

  /** With no config file, the first run writes the three hard-coded defaults. */
  lemma FirstRunWritesDefaults()
    ensures ConfigAfterRun(None, true, true) == Some(StoredConfig(DefaultAuthorName, DefaultAuthorURI, DefaultTheme))
  {
    var d := LoadDefaults(ReadFile(None));
    assert d == Defaults("", "", DefaultTheme, false);
  }

  /**
   * A config file with an empty field does not count as existing, so the
   * next run rewrites it: stored non-empty fields survive, empty ones get
   * the defaults.
   */
  lemma PartialConfigIsRepaired(c: StoredConfig)
    requires !Complete(c)
    ensures ConfigAfterRun(Some(c), true, true)
            == Some(StoredConfig(Or(c.authorName, DefaultAuthorName), Or(c.authorURI, DefaultAuthorURI),
                                 Or(c.theme, DefaultTheme)))
  {
    var d := LoadDefaults(ReadFile(Some(c)));
    assert !d.configExists;
    assert d.theme == Or(c.theme, DefaultTheme);
  }

  // ---------------------------------------------------------------------
  // Starter-theme URL completion
  // ---------------------------------------------------------------------

  /** The last character is `/`; `substring(length - 1)` of the empty string is empty. */
  predicate EndsWithSlash(s: string) {
    |s| > 0 && s[|s| - 1] == '/'
  }

  /**
   * `askFor`: a starter-theme URL without `tarball/` in it is taken to be a
   * repository URL and gets `tarball/master` on the master branch, with a
   * `/` in between unless it already ends in one. The URL stays a prefix
   * of the result, and the result contains `tarball/`.
   */
  function CompleteThemeUrl(url: string): (r: string)
    ensures url <= r
    ensures Contains(r, "tarball/")
    ensures Contains(url, "tarball/") ==> r == url
    ensures !Contains(url, "tarball/") && EndsWithSlash(url) ==> r == url + "tarball/master"
    ensures !Contains(url, "tarball/") && !EndsWithSlash(url) ==> r == url + "/tarball/master"
  {
    if Contains(url, "tarball/") then url
    else if EndsWithSlash(url) then
      var r := url + "tarball/master";
      assert r[|url|..|url| + 8] == "tarball/";
      ContainsAt(r, "tarball/", |url|);
      r
    else
      var r := url + "/tarball/master";
      assert r[|url| + 1..|url| + 9] == "tarball/";
      ContainsAt(r, "tarball/", |url| + 1);
      r
  }

  /** Completing a completed URL changes nothing. */
  lemma CompleteThemeUrlIdempotent(url: string)
    ensures CompleteThemeUrl(CompleteThemeUrl(url)) == CompleteThemeUrl(url)
  {
  }

  // ---------------------------------------------------------------------
  // Theme-name normalisation
  // ---------------------------------------------------------------------

  /** `props.themeName.replace(/\ /g, '').toLowerCase()`: no spaces and no upper-case letters are left. */
  function NormalizeThemeName(name: string): (r: string)
    ensures |r| <= |name|
    ensures forall i :: 0 <= i < |r| ==> r[i] != ' ' && !IsUpperAscii(r[i])
  {
    var t := RemoveSpaces(name);
    var r := ToLowerAscii(t);
    assert forall i :: 0 <= i < |r| ==> r[i] == LowerChar(t[i]);
    r
  }

  /**
   * The value of the normalised name, one character at a time: a space is
   * dropped and any other character is lowered.
   */
  lemma NormalizeThemeNameChar(c: char)
    ensures NormalizeThemeName([c]) == if c == ' ' then [] else [LowerChar(c)]
  {
    RemoveSpacesChar(c);
  }

  /**
   * A name is normalised piece by piece; with `NormalizeThemeNameChar` this
   * fixes the value: the non-space characters, lowered, in their order.
   */
  lemma NormalizeThemeNameAppend(a: string, b: string)
    ensures NormalizeThemeName(a + b) == NormalizeThemeName(a) + NormalizeThemeName(b)
  {
    RemoveSpacesAppend(a, b);
    ToLowerAsciiAppend(RemoveSpaces(a), RemoveSpaces(b));
  }

  /** Normalising a normalised name changes nothing, and the raw name is not needed to repeat it. */
  lemma NormalizeThemeNameIdempotent(name: string)
    ensures NormalizeThemeName(NormalizeThemeName(name)) == NormalizeThemeName(name)
  {
    var r := NormalizeThemeName(name);
    assert RemoveSpaces(r) == r;
    ToLowerAsciiKeepsLower(r);
  }

  /** A name without spaces normalises to its character-by-character lowering. */
  lemma NormalizeWithoutSpaces(name: string, lowered: string)
    requires forall i :: 0 <= i < |name| ==> name[i] != ' '
    requires |name| == |lowered| && forall i :: 0 <= i < |name| ==> LowerChar(name[i]) == lowered[i]
    ensures NormalizeThemeName(name) == lowered
  {
    LowerMatches(name, lowered);
  }

  /** A space between two parts disappears, and each part is normalised on its own. */
  lemma NormalizeAroundSpace(a: string, b: string)
    ensures NormalizeThemeName(a + " " + b) == NormalizeThemeName(a) + NormalizeThemeName(b)
  {
    NormalizeThemeNameAppend(a + " ", b);
    NormalizeThemeNameAppend(a, " ");
    NormalizeThemeNameChar(' ');
  }

  /** `"Already-Lower"` normalises to `"already-lower"`. */
  lemma NormalizeAlreadyLower()
    ensures NormalizeThemeName("Already-Lower") == "already-lower"
  {
    NormalizeWithoutSpaces("Already-Lower", "already-lower");
  }

  /** The two words of `"My Theme"` normalise to `"my"` and `"theme"`. */
  lemma NormalizeMyThemeWords()
    ensures NormalizeThemeName("My") == "my" && NormalizeThemeName("Theme") == "theme"
  {
    NormalizeWithoutSpaces("My", "my");
    NormalizeWithoutSpaces("Theme", "theme");
  }

  /** `"My Theme"`, taken apart at its space, normalises to `"mytheme"`. */
  lemma NormalizeMyThemeParts()
    ensures NormalizeThemeName("My" + " " + "Theme") == "mytheme"
  {
    NormalizeAroundSpace("My", "Theme");
    NormalizeMyThemeWords();
  }

  /** `"My Theme"` normalises to `"mytheme"`. */
  lemma NormalizeMyTheme()
    ensures NormalizeThemeName("My Theme") == "mytheme"
  {
    NormalizeMyThemeParts();
    assert "My" + " " + "Theme" == "My Theme";
  }

  /** Lowering `s` gives `t` when they agree character by character. */
  lemma LowerMatches(s: string, t: string)
    requires |s| == |t| && forall i :: 0 <= i < |s| ==> LowerChar(s[i]) == t[i]
    ensures ToLowerAscii(s) == t
  {
  }

  // ---------------------------------------------------------------------
  // The bootstrap.less patch
  // ---------------------------------------------------------------------

  /** `data.replace('sprites.less', 'font-awesome.less')` on `src/less/includes/bootstrap.less`. */
  function PatchBootstrapLess(data: string): (r: string)
    ensures !Contains(data, "sprites.less") ==> r == data
    ensures |r| == if Contains(data, "sprites.less") then |data| + 5 else |data|
  {
    ReplaceFirst(data, "sprites.less", "font-awesome.less")
  }

  /** Text that does not mention `sprites.less` is written back unchanged. */
  lemma PatchWithoutSpritesIsIdentity(data: string)
    requires !Contains(data, "sprites.less")
    ensures PatchBootstrapLess(data) == data
  {
  }

  /**
   * Only the first `sprites.less` is replaced: the text before it is kept,
   * `font-awesome.less` stands in its place, and the rest of the text is
   * kept, so a later `sprites.less` survives, shifted by five characters.
   */
  lemma PatchReplacesFirstOnly(data: string, i: nat, j: nat)
    requires OccursAt(data, "sprites.less", i)
    requires forall k: nat :: k < i ==> !OccursAt(data, "sprites.less", k)
    requires i + 12 <= j && OccursAt(data, "sprites.less", j)
    ensures var r := PatchBootstrapLess(data);
            && r[..i] == data[..i]
            && OccursAt(r, "font-awesome.less", i)
            && OccursAt(r, "sprites.less", j + 5)
  {
    var r := PatchBootstrapLess(data);
    assert r == data[..i] + "font-awesome.less" + data[i + 12..];
    assert r[i..i + 17] == "font-awesome.less";
    assert r[j + 5..j + 17] == data[j..j + 12];
  }

  // ---------------------------------------------------------------------
  // The generator instance
  // ---------------------------------------------------------------------

  /**
   * The error the prompt library reports; the prompt's result is a
   * `Result<string, PromptError>`, the theme name or this error.
   */
  datatype PromptError = PromptError

  /** How `askFor` ends: the run aborts on a prompt error, writes the config, or keeps it. */
  datatype AskOutcome = Aborted | ConfigWritten(write: Result<(), IoError>) | ConfigKept

  /** How `askFor` ends, given the defaults `getConfig` loaded. */
  function AskOutcomeFor(d: Defaults, promptOk: bool, writeOk: bool): (o: AskOutcome)
    ensures o.ConfigWritten? <==> PersistDecision(d, promptOk).Some?
    ensures o.Aborted? <==> !promptOk
    ensures o.ConfigWritten? ==> (o.write.Ok? <==> writeOk)
  {
    if !promptOk then Aborted
    else if d.configExists then ConfigKept
    else ConfigWritten(if writeOk then Ok(()) else Failure(WriteFailed))
  }

  class Generator {
    var latestVersion: string
    var latestBootstrapVersion: string
    var latestFAVersion: string
    var defaultAuthorName: string
    var defaultAuthorURI: string
    var defaultTheme: string
    var configExists: bool
    var themeNameOriginal: string
    var themeName: string
    var themeOriginalURL: string
    var themeBoilerplate: string
    var wordpressVersion: string
    var authorName: string
    var authorURI: string
    var bootstrapVersion: string
    var fontAwesomeVersion: string

    /** The fields a fresh instance has not assigned yet are empty. */
    constructor ()
      ensures latestVersion == "" && latestBootstrapVersion == "" && latestFAVersion == ""
      ensures CurrentDefaults() == Defaults("", "", "", false)
    {
      latestVersion, latestBootstrapVersion, latestFAVersion := "", "", "";
      defaultAuthorName, defaultAuthorURI, defaultTheme, configExists := "", "", "", false;
      themeNameOriginal, themeName, themeOriginalURL, themeBoilerplate := "", "", "", "";
      wordpressVersion, authorName, authorURI := "", "", "";
      bootstrapVersion, fontAwesomeVersion := "", "";
    }

    /** The defaults as `getConfig` left them on the instance. */
    function CurrentDefaults(): Defaults
      reads this`defaultAuthorName, this`defaultAuthorURI, this`defaultTheme, this`configExists
    {
      Defaults(defaultAuthorName, defaultAuthorURI, defaultTheme, configExists)
    }

    /** `getVersion`: the latest WordPress tag, or '3.5.1'. */
    method GetVersion(result: CommandResult)
      modifies this`latestVersion
      ensures latestVersion == ResolveVersion(result, WordPressFallback)
    {
      if result.Errored? {
        latestVersion := WordPressFallback;
      } else {
        var m := MatchVersion(result.text);
        if m.Some? {
          latestVersion := m.value;
        } else {
          latestVersion := WordPressFallback;
        }
      }
    }

    /** `getBootstrapVersion`: the latest Bootstrap tag, or '2.3.1'. */
    method GetBootstrapVersion(result: CommandResult)
      modifies this`latestBootstrapVersion
      ensures latestBootstrapVersion == ResolveVersion(result, BootstrapFallback)
    {
      if result.Errored? {
        latestBootstrapVersion := BootstrapFallback;
      } else {
        var m := MatchVersion(result.text);
        if m.Some? {
          latestBootstrapVersion := m.value;
        } else {
          latestBootstrapVersion := BootstrapFallback;
        }
      }
    }

    /** `getFAVersion`: the latest Font Awesome tag, or '3.0.2'. */
    method GetFAVersion(result: CommandResult)
      modifies this`latestFAVersion
      ensures latestFAVersion == ResolveVersion(result, FontAwesomeFallback)
    {
      if result.Errored? {
        latestFAVersion := FontAwesomeFallback;
      } else {
        var m := MatchVersion(result.text);
        if m.Some? {
          latestFAVersion := m.value;
        } else {
          latestFAVersion := FontAwesomeFallback;
        }
      }
    }

    /** The latest versions are the ones the three lookups resolved. */
    predicate VersionsResolved(wordpress: CommandResult, bootstrap: CommandResult, fontAwesome: CommandResult)
      reads this`latestVersion, this`latestBootstrapVersion, this`latestFAVersion
    {
      && latestVersion == ResolveVersion(wordpress, WordPressFallback)
      && latestBootstrapVersion == ResolveVersion(bootstrap, BootstrapFallback)
      && latestFAVersion == ResolveVersion(fontAwesome, FontAwesomeFallback)
    }

    /** The three version lookups, in the order the generator runs them. */
    method LookUpVersions(wordpress: CommandResult, bootstrap: CommandResult, fontAwesome: CommandResult)
      modifies this`latestVersion, this`latestBootstrapVersion, this`latestFAVersion
      ensures VersionsResolved(wordpress, bootstrap, fontAwesome)
    {
      GetVersion(wordpress);
      GetBootstrapVersion(bootstrap);
      GetFAVersion(fontAwesome);
    }

    /** `getConfig`: set the prompt defaults from the config file, field by field. */
    method GetConfig(store: ConfigStore)
      modifies this`defaultAuthorName, this`defaultAuthorURI, this`defaultTheme, this`configExists
      ensures CurrentDefaults() == LoadDefaults(ReadFile(store.file))
    {
      defaultAuthorName := "";
      defaultAuthorURI := "";
      defaultTheme := DefaultTheme;
      configExists := false;
      var read := store.GetConfig();
      if read.Ok? {
        var data := read.value;
        defaultAuthorName := Or(data.authorName, defaultAuthorName);
        defaultAuthorURI := Or(data.authorURI, defaultAuthorURI);
        defaultTheme := Or(data.theme, defaultTheme);
        if data.authorName != "" && data.authorURI != "" && data.theme != "" {
          configExists := true;
        }
      }
    }

    /** The URL completion inside `askFor`, applied to `themeBoilerplate`. */
    method CompleteBoilerplate()
      modifies this`themeBoilerplate
      ensures themeBoilerplate == CompleteThemeUrl(old(themeBoilerplate))
    {
      if !Contains(themeBoilerplate, "tarball/") {
        if EndsWithSlash(themeBoilerplate) {
          themeBoilerplate := themeBoilerplate + "tarball/master";
        } else {
          themeBoilerplate := themeBoilerplate + "/tarball/master";
        }
      }
    }

    /** The answers `askFor` copies from the defaults and the resolved versions, with the URL completed. */
    predicate AnswersCopied()
      reads this`themeOriginalURL, this`themeBoilerplate, this`wordpressVersion, this`bootstrapVersion,
            this`fontAwesomeVersion, this`authorName, this`authorURI, this`defaultTheme, this`latestVersion,
            this`latestBootstrapVersion, this`latestFAVersion, this`defaultAuthorName, this`defaultAuthorURI
    {
      (themeOriginalURL, themeBoilerplate, wordpressVersion, bootstrapVersion, fontAwesomeVersion, authorName, authorURI)
      == (defaultTheme, CompleteThemeUrl(defaultTheme), latestVersion, latestBootstrapVersion, latestFAVersion,
          defaultAuthorName, defaultAuthorURI)
    }

    /** The theme names after the prompt: the raw answer and its normalisation, or `mytheme` twice. */
    predicate ThemeNamesFrom(prompt: Result<string, PromptError>)
      reads this`themeNameOriginal, this`themeName
    {
      match prompt
      case Ok(answer) => themeNameOriginal == answer && themeName == NormalizeThemeName(answer)
      case Failure(_) => themeNameOriginal == StartThemeName && themeName == StartThemeName
    }

    /**
     * The start of `askFor`: copy the defaults and the resolved versions
     * into the answers; the starter-theme URL is not completed yet.
     */
    method PrepareAnswers()
      modifies this`themeNameOriginal, this`themeName, this`themeOriginalURL, this`themeBoilerplate,
               this`wordpressVersion, this`authorName, this`authorURI, this`bootstrapVersion,
               this`fontAwesomeVersion
      ensures themeNameOriginal == StartThemeName && themeName == StartThemeName
      ensures themeOriginalURL == defaultTheme && themeBoilerplate == defaultTheme
      ensures wordpressVersion == latestVersion && bootstrapVersion == latestBootstrapVersion
      ensures fontAwesomeVersion == latestFAVersion
      ensures authorName == defaultAuthorName && authorURI == defaultAuthorURI
    {
      themeNameOriginal := StartThemeName;
      themeName := StartThemeName;
      themeOriginalURL := defaultTheme;
      themeBoilerplate := defaultTheme;
      wordpressVersion := latestVersion;
      authorName := defaultAuthorName;
      authorURI := defaultAuthorURI;
      bootstrapVersion := latestBootstrapVersion;
      fontAwesomeVersion := latestFAVersion;
    }

    /**
     * The prompt callback of `askFor`: on an error the run aborts;
     * otherwise keep the raw theme name, normalise it, and create the
     * config file when it does not exist.
     */
    method OnPrompt(prompt: Result<string, PromptError>, store: ConfigStore, writeOk: bool)
      returns (outcome: AskOutcome)
      modifies this`themeNameOriginal, this`themeName, store
      ensures prompt.Failure? ==> themeNameOriginal == old(themeNameOriginal) && themeName == old(themeName)
      ensures prompt.Ok? ==> themeNameOriginal == prompt.value && themeName == NormalizeThemeName(prompt.value)
      ensures store.file == if prompt.Ok? && !configExists && writeOk
                            then Some(BuildRecord(ConfigValues(authorName, authorURI, themeOriginalURL)))
                            else old(store.file)
      ensures store.dirExists == (old(store.dirExists) || (prompt.Ok? && !configExists))
      ensures outcome == AskOutcomeFor(CurrentDefaults(), prompt.Ok?, writeOk)
      ensures AnswersCopied() == old(AnswersCopied())
    {
      if prompt.Failure? {
        return Aborted;
      }
      themeNameOriginal := prompt.value;
      themeName := NormalizeThemeName(prompt.value);

      if !configExists {
        var values := ConfigValues(authorName, authorURI, themeOriginalURL);
        var write := store.CreateConfig(values, writeOk);
        outcome := ConfigWritten(write);
      } else {
        outcome := ConfigKept;
      }
    }

    /** `askFor`: prepare the answers, complete the starter-theme URL, then ask for the theme name. */
    method AskFor(prompt: Result<string, PromptError>, store: ConfigStore, writeOk: bool)
      returns (outcome: AskOutcome)
      modifies this`themeNameOriginal, this`themeName, this`themeOriginalURL, this`themeBoilerplate,
               this`wordpressVersion, this`authorName, this`authorURI, this`bootstrapVersion,
               this`fontAwesomeVersion, store
      ensures AnswersCopied()
      ensures ThemeNamesFrom(prompt)
      ensures store.file == ConfigAfterAsk(old(store.file), CurrentDefaults(), prompt.Ok?, writeOk)
      ensures store.dirExists == (old(store.dirExists) || PersistDecision(CurrentDefaults(), prompt.Ok?).Some?)
      ensures outcome == AskOutcomeFor(CurrentDefaults(), prompt.Ok?, writeOk)
    {
      PrepareAnswers();
      CompleteBoilerplate();
      outcome := OnPrompt(prompt, store, writeOk);
    }

    /**
     * The steps in the order the generator runs them, from `getVersion` to
     * `askFor`; the command results, the prompt answer and the outcome of
     * the config write are the inputs of the run.
     */
    method RunUntilPrompt(wordpress: CommandResult, bootstrap: CommandResult, fontAwesome: CommandResult,
                          store: ConfigStore, prompt: Result<string, PromptError>, writeOk: bool)
      returns (outcome: AskOutcome)
      modifies this, store
      ensures VersionsResolved(wordpress, bootstrap, fontAwesome)
      ensures wordpressVersion != "" && bootstrapVersion != "" && fontAwesomeVersion != ""
      ensures CurrentDefaults() == LoadDefaults(ReadFile(old(store.file)))
      ensures AnswersCopied()
      ensures ThemeNamesFrom(prompt)
      ensures store.file == ConfigAfterRun(old(store.file), prompt.Ok?, writeOk)
      ensures store.dirExists == (old(store.dirExists) || PersistDecision(CurrentDefaults(), prompt.Ok?).Some?)
      ensures outcome == AskOutcomeFor(CurrentDefaults(), prompt.Ok?, writeOk)
    {
      LookUpVersions(wordpress, bootstrap, fontAwesome);
      GetConfig(store);
      outcome := AskFor(prompt, store, writeOk);
    }
  }

  /**
   * Two consecutive runs on one machine that start without a config file:
   * the first writes the defaults, the second finds them and writes nothing.
   */
  method TwoRuns(lookups1: (CommandResult, CommandResult, CommandResult), answer1: string,
                 lookups2: (CommandResult, CommandResult, CommandResult),
                 answer2: Result<string, PromptError>, writeOk2: bool)
    returns (first: AskOutcome, second: AskOutcome, file: Option<StoredConfig>)
    ensures first == ConfigWritten(Ok(()))
    ensures !second.ConfigWritten?
    ensures second == if answer2.Ok? then ConfigKept else Aborted
    ensures file == Some(StoredConfig(DefaultAuthorName, DefaultAuthorURI, DefaultTheme))
  {
    var store := new ConfigStore(None, false);
    var run1 := new Generator();
    first := run1.RunUntilPrompt(lookups1.0, lookups1.1, lookups1.2, store, Ok(answer1), true);
    FirstRunWritesDefaults();
    var run2 := new Generator();
    second := run2.RunUntilPrompt(lookups2.0, lookups2.1, lookups2.2, store, answer2, writeOk2);
    SecondRunNeverWrites(None, answer2.Ok?, writeOk2);
    file := store.file;
  }
}

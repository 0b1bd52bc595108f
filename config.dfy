/**
 * The remembered-defaults store: one JSON file with the keys `authorName`,
 * `authorURI` and `theme` under a fixed per-user directory. The file is a
 * single cell that is either absent (unreadable) or holds one record; the
 * empty string stands for a field that is missing or empty in the JSON.
 */
module Config {
  import opened Wrappers
  import opened JsString

  const DefaultAuthorName := "theREDspace"
  const DefaultAuthorURI := "http://www.redspace.com"
  const DefaultTheme := "https://github.com/theREDspace/wp_starter"

  /** The record kept in the config file. */
  datatype StoredConfig = StoredConfig(authorName: string, authorURI: string, theme: string)

  /** The values the generator hands to `createConfig`; the theme arrives as `themeUrl`. */
  datatype ConfigValues = ConfigValues(authorName: string, authorURI: string, themeUrl: string)

  datatype IoError = ReadFailed | WriteFailed

  /** Every field of the record is non-empty, i.e. truthy in JavaScript. */
  predicate Complete(c: StoredConfig) {
    c.authorName != "" && c.authorURI != "" && c.theme != ""
  }

  /**
   * The record `createConfig` writes: each field is the supplied value when
   * that is non-empty and the hard-coded default otherwise, and the theme
   * is taken from `themeUrl`.
   */
  function BuildRecord(values: ConfigValues): (c: StoredConfig)
    ensures Complete(c)
    ensures values.authorName != "" ==> c.authorName == values.authorName
    ensures values.authorName == "" ==> c.authorName == DefaultAuthorName
    ensures values.authorURI != "" ==> c.authorURI == values.authorURI
    ensures values.authorURI == "" ==> c.authorURI == DefaultAuthorURI
    ensures values.themeUrl != "" ==> c.theme == values.themeUrl
    ensures values.themeUrl == "" ==> c.theme == DefaultTheme
  {
    StoredConfig(
      Or(values.authorName, DefaultAuthorName),
      Or(values.authorURI, DefaultAuthorURI),
      Or(values.themeUrl, DefaultTheme))
  }

  /** Building from a complete record's own values gives that record back. */
  lemma BuildRecordKeepsComplete(c: StoredConfig)
    requires Complete(c)
    ensures BuildRecord(ConfigValues(c.authorName, c.authorURI, c.theme)) == c
  {
  }

  /** What `getConfig` reports for a given file: its record, or an error and no data. */
  function ReadFile(file: Option<StoredConfig>): (r: Result<StoredConfig, IoError>)
    ensures r.Ok? <==> file.Some?
    ensures file.Some? ==> r.value == file.value
  {
    match file
    case Some(c) => Ok(c)
    case None => Failure(ReadFailed)
  }

  /** The config file and its directory. */
  class ConfigStore {
    var file: Option<StoredConfig>
    var dirExists: bool

    constructor (file: Option<StoredConfig>, dirExists: bool)
      ensures this.file == file && this.dirExists == dirExists
    {
      this.file := file;
      this.dirExists := dirExists;
    }

    /** `fs.readFile` of the config path followed by `JSON.parse`. */
    method GetConfig() returns (r: Result<StoredConfig, IoError>)
      ensures r == ReadFile(file)
    {
      if file.Some? {
        r := Ok(file.value);
      } else {
        r := Failure(ReadFailed);
      }
    }

    /** `fs.mkdir`: creating the directory twice leaves it as creating it once. */
    method Mkdir() returns (alreadyExisted: bool)
      modifies this`dirExists
      ensures dirExists
      ensures alreadyExisted == old(dirExists)
    {
      alreadyExisted := dirExists;
      dirExists := true;
    }

    /**
     * `createConfig`: build the record, create the directory ignoring the
     * outcome, then write the file; `writeOk` is the outcome of the write.
     */
    method CreateConfig(values: ConfigValues, writeOk: bool) returns (r: Result<(), IoError>)
      modifies this
      ensures dirExists
      ensures writeOk ==> file == Some(BuildRecord(values)) && r == Ok(())
      ensures !writeOk ==> file == old(file) && r == Failure(WriteFailed)
    {
      var config := BuildRecord(values);
      var _ := Mkdir();
      if writeOk {
        file := Some(config);
        r := Ok(());
      } else {
        r := Failure(WriteFailed);
      }
    }
  }

  /** Reading the file back after a successful `createConfig` yields exactly the saved record. */
  method SaveThenLoad(values: ConfigValues, initial: Option<StoredConfig>, dirExists: bool)
    returns (r: Result<StoredConfig, IoError>)
    ensures r == Ok(BuildRecord(values))
    ensures Complete(r.value)
  {
    var store := new ConfigStore(initial, dirExists);
    var _ := store.CreateConfig(values, true);
    r := store.GetConfig();
  }
}

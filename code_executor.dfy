/** The code runner of app/lib/modules/llm/android/features/CodeExecutor.ts: the
    supported-language table, the file extension per language, and `executeCode`,
    which checks the language, writes the code to a fresh file under the code
    directory, asks the native module to run it with the configured limits, and
    removes the file. The file system under the code directory is the map `files`
    from path to contents; the results of the file operations and of the native call
    are given to the operations, and so are the clock and the random part of the
    file name. */
module CodeExecution {
  import opened Common

  /** `new Set([...])`, in insertion order. */
  const SupportedLanguages: seq<string> := ["javascript", "typescript", "python"]

  const DefaultTimeout := 5000
  const DefaultMemoryLimit := 100 * 1024 * 1024

  /** `Partial<ExecutionConfig>` as far as `executeCode` reads it. */
  datatype ExecutionConfig = ExecutionConfig(timeout: Option<int>, memoryLimit: Option<int>, args: Option<seq<string>>, env: Option<map<string, string>>)

  datatype ExecutionResult = ExecutionResult(stdout: string, stderr: string, exitCode: int, executionTime: int, memoryUsage: int)

  /** The argument of `CodeExecutorModule.execute`. */
  datatype NativeRequest = NativeRequest(filepath: string, language: string, timeout: int, memoryLimit: int, args: seq<string>, env: map<string, string>)

  /** `isLanguageSupported`. */
  predicate IsLanguageSupported(language: string)
  {
    language in SupportedLanguages
  }

  /** `getSupportedLanguages`: each supported language once. */
  function GetSupportedLanguages(): (r: seq<string>)
    ensures NoDup(r)
    ensures forall l :: l in r <==> IsLanguageSupported(l)
  {
    SupportedLanguages
  }

  /** `getFileExtension`: the table entry, or the language itself when it has none. */
  function GetFileExtension(language: string): (r: string)
    ensures language == "javascript" ==> r == "js"
    ensures language == "typescript" ==> r == "ts"
    ensures language == "python" ==> r == "py"
    ensures !IsLanguageSupported(language) ==> r == language
  {
    var extensions := map["javascript" := "js", "typescript" := "ts", "python" := "py"];
    if language in extensions then extensions[language] else language
  }

  /** Supported languages get distinct extensions, none of which is a language name. */
  lemma ExtensionsDistinct(a: string, b: string)
    requires IsLanguageSupported(a) && IsLanguageSupported(b) && a != b
    ensures GetFileExtension(a) != GetFileExtension(b)
    ensures !IsLanguageSupported(GetFileExtension(a))
  {
  }

  /** A numeric setting read with `||`: absent and 0 both fall back to the default. */
  function OrDefault(value: Option<int>, default: int): (r: int)
    ensures value.Some? && value.value != 0 ==> r == value.value
    ensures value.None? || value.value == 0 ==> r == default
  {
    if value.None? || value.value == 0 then default else value.value
  }

  /** The request `executeCode` sends for a configuration: an empty list and an empty
      record are truthy, so only absent `args` and `env` take the defaults. */
  function Request(filepath: string, language: string, config: ExecutionConfig): (r: NativeRequest)
    ensures r.filepath == filepath && r.language == language
    ensures r.timeout == OrDefault(config.timeout, DefaultTimeout)
    ensures r.memoryLimit == OrDefault(config.memoryLimit, DefaultMemoryLimit)
    ensures config.args.Some? ==> r.args == config.args.value
    ensures config.args.None? ==> r.args == []
    ensures config.env.Some? ==> r.env == config.env.value
    ensures config.env.None? ==> r.env == map[]
  {
    NativeRequest(
      filepath,
      language,
      OrDefault(config.timeout, DefaultTimeout),
      OrDefault(config.memoryLimit, DefaultMemoryLimit),
      if config.args.Some? then config.args.value else [],
      if config.env.Some? then config.env.value else map[])
  }

  /** A configuration that sets nothing runs with 5000 ms and 100 MB. */
  lemma EmptyConfigDefaults(filepath: string, language: string)
    ensures var r := Request(filepath, language, ExecutionConfig(None, None, None, None));
      r.timeout == 5000 && r.memoryLimit == 104857600 && r.args == [] && r.env == map[]
  {
  }

  /** The temporary file's name: the time, `_`, and the random part. */
  function FileName(now: nat, randomPart: string): string
  {
    NatToString(now) + "_" + randomPart
  }

  function FilePath(codeDir: string, filename: string, language: string): (r: string)
    ensures StartsWith(r, codeDir + "/")
    ensures EndsWith(r, "." + GetFileExtension(language))
  {
    var r := codeDir + "/" + filename + "." + GetFileExtension(language);
    assert r[..|codeDir + "/"|] == codeDir + "/";
    assert r[|r| - |"." + GetFileExtension(language)|..] == "." + GetFileExtension(language);
    r
  }

  class CodeExecutor {
    const codeDir: string
    var dirExists: bool
    var files: map<string, string>

    constructor (codeDir: string, dirExists: bool, files: map<string, string>)
      ensures this.codeDir == codeDir && this.dirExists == dirExists && this.files == files
    {
      this.codeDir := codeDir;
      this.dirExists := dirExists;
      this.files := files;
    }

    /** `initialize`: the directory is made when `exists` says it is missing; a
        failure of either call is rethrown. */
    method Initialize(found: Result<bool>, made: Outcome) returns (r: Outcome)
      modifies this`dirExists
      ensures found.Err? ==> r == Fail(found.error) && dirExists == old(dirExists)
      ensures found == Ok(true) ==> r == Pass && dirExists == old(dirExists)
      ensures found == Ok(false) ==> r == made && dirExists == (old(dirExists) || made.Pass?)
    {
      if found.Err? {
        return Fail(found.error);
      }
      r := Pass;
      if !found.value {
        r := made;
        if made.Pass? {
          dirExists := true;
        }
      }
    }

    /** `executeCode`. An unsupported language is rejected before anything is
        written or run. The file is removed only after the native call succeeded:
        there is no `finally`, so a failed run leaves it behind. `request` is the
        request sent to the native module, if one was. */
    method ExecuteCode(code: string, language: string, config: ExecutionConfig, now: nat, randomPart: string,
                       written: Outcome, executed: Result<ExecutionResult>, unlinked: Outcome)
      returns (r: Result<ExecutionResult>, request: Option<NativeRequest>)
      modifies this`files
      ensures !IsLanguageSupported(language) ==>
        r == Err("Unsupported language: " + language) && request.None? && files == old(files)
      ensures IsLanguageSupported(language) ==>
        var path := FilePath(codeDir, FileName(now, randomPart), language);
        && (written.Fail? ==> r == Err(written.error) && request.None? && files == old(files))
        && (written.Pass? ==> request == Some(Request(path, language, config)))
        && (written.Pass? && executed.Err? ==> r == executed && files == old(files)[path := code])
        && (written.Pass? && executed.Ok? && unlinked.Fail? ==> r == Err(unlinked.error) && files == old(files)[path := code])
        && (written.Pass? && executed.Ok? && unlinked.Pass? ==> r == executed && files == old(files) - {path})
    {
      if !IsLanguageSupported(language) {
        return Err("Unsupported language: " + language), None;
      }
      var filename := FileName(now, randomPart);
      var filepath := FilePath(codeDir, filename, language);
      if written.Fail? {
        return Err(written.error), None;
      }
      files := files[filepath := code];
      request := Some(Request(filepath, language, config));
      if executed.Err? {
        return executed, request;
      }
      if unlinked.Fail? {
        return Err(unlinked.error), request;
      }
      files := files - {filepath};
      r := executed;
    }
  }
}

/**
 * The two pure rules of the native runtime loader: which library file name an
 * operating-system name selects, and how a log record from the native side is
 * dispatched to a logger level and formatted.
 */
module Runtime {
  import opened Exceptions

  /** `Character.toLowerCase` on the ASCII letters; every other character is kept. */
  function LowerChar(c: char): (d: char)
    ensures 'A' <= c <= 'Z' ==> d as int == c as int + 32
    ensures !('A' <= c <= 'Z') ==> d == c
  {
    if 'A' <= c <= 'Z' then (c as int + 32) as char else c
  }

  /** `toLowerCase(Locale.ENGLISH)`, restricted to ASCII letters. */
  function Lower(s: string): (t: string)
    ensures |t| == |s| && forall i :: 0 <= i < |s| ==> t[i] == LowerChar(s[i])
  {
    seq(|s|, i requires 0 <= i < |s| => LowerChar(s[i]))
  }

  /** `t` occurs in `s` starting at index `i`. */
  predicate OccursAt(s: string, t: string, i: int)
  {
    0 <= i <= |s| - |t| && s[i..i + |t|] == t
  }

  /** `s.contains(t)`. */
  predicate Contains(s: string, t: string)
  {
    exists i :: 0 <= i <= |s| - |t| && OccursAt(s, t, i)
  }

  const LinuxLibrary: string := "libngrok_java.so"
  const WindowsLibrary: string := "ngrok_java.dll"
  const MacLibrary: string := "libngrok_java.dylib"

  /**
   * `getLibname()` for the given `os.name`: the lower-cased name is tested for
   * "nix" or "nux", then for "win", then for "mac", and the first match wins.
   */
  function Libname(osName: string): (r: Result<string>)
    ensures var os := Lower(osName);
      && (r == Ok(LinuxLibrary) <==> Contains(os, "nix") || Contains(os, "nux"))
      && (r == Ok(WindowsLibrary) <==> !Contains(os, "nix") && !Contains(os, "nux") && Contains(os, "win"))
      && (r == Ok(MacLibrary) <==>
            !Contains(os, "nix") && !Contains(os, "nux") && !Contains(os, "win") && Contains(os, "mac"))
      && (r.Err? <==> !Contains(os, "nix") && !Contains(os, "nux") && !Contains(os, "win") && !Contains(os, "mac"))
      && (r.Err? ==> r.exc == RuntimeException("unknown OS: " + os))
  {
    var os := Lower(osName);
    if Contains(os, "nix") || Contains(os, "nux") then Ok(LinuxLibrary)
    else if Contains(os, "win") then Ok(WindowsLibrary)
    else if Contains(os, "mac") then Ok(MacLibrary)
    else Err(RuntimeException("unknown OS: " + os))
  }

  /** An occurrence at `i` is a witness for `contains`. */
  lemma ContainsAt(s: string, t: string, i: nat)
    requires i + |t| <= |s| && s[i..i + |t|] == t
    ensures Contains(s, t)
  {
    assert OccursAt(s, t, i);
  }

  /** Linux is given the shared object. */
  lemma LinuxGetsTheSharedObject()
    ensures Libname("Linux") == Ok(LinuxLibrary)
  {
    assert Lower("Linux") == "linux";
    ContainsAt("linux", "nux", 2);
  }

  /** Windows is given the DLL. */
  lemma WindowsGetsTheDll()
    ensures Libname("Windows 11") == Ok(WindowsLibrary)
  {
    assert Lower("Windows 11") == "windows 11";
    WindowsMatches();
  }

  lemma WindowsMatches()
    ensures Contains("windows 11", "win")
    ensures !Contains("windows 11", "nix") && !Contains("windows 11", "nux")
  {
    ContainsAt("windows 11", "win", 0);
    NotContained("windows 11", "nix");
    NotContained("windows 11", "nux");
  }

  /** macOS is given the dylib. */
  lemma MacGetsTheDylib()
    ensures Libname("Mac OS X") == Ok(MacLibrary)
  {
    assert Lower("Mac OS X") == "mac os x";
    MacOsXMatchesOnlyMac();
  }

  lemma MacOsXMatchesOnlyMac()
    ensures Contains("mac os x", "mac")
    ensures !Contains("mac os x", "nix") && !Contains("mac os x", "nux") && !Contains("mac os x", "win")
  {
    ContainsAt("mac os x", "mac", 0);
    NotContained("mac os x", "nix");
    NotContained("mac os x", "nux");
    NotContained("mac os x", "win");
  }

  /** Because "win" is tested before "mac", a system calling itself "Darwin" is given the Windows library. */
  lemma DarwinGetsTheDll()
    ensures Libname("Darwin") == Ok(WindowsLibrary)
  {
    assert Lower("Darwin") == "darwin";
    DarwinMatchesWin();
  }

  lemma DarwinMatchesWin()
    ensures Contains("darwin", "win")
    ensures !Contains("darwin", "nix") && !Contains("darwin", "nux")
  {
    ContainsAt("darwin", "win", 3);
    NotContained("darwin", "nix");
    NotContained("darwin", "nux");
  }

  /** An unrecognised name is refused with its lower-cased form in the message. */
  lemma UnknownSystem()
    ensures Libname("SunOS") == Err(RuntimeException("unknown OS: sunos"))
  {
    assert Lower("SunOS") == "sunos";
    SunosMatchesNothing();
  }

  lemma SunosMatchesNothing()
    ensures !Contains("sunos", "nix") && !Contains("sunos", "nux")
    ensures !Contains("sunos", "win") && !Contains("sunos", "mac")
  {
    NotContained("sunos", "nix");
    NotContained("sunos", "nux");
    NotContained("sunos", "win");
    NotContained("sunos", "mac");
  }

  /** A three-letter `t` whose first letter does not occur in `s`, or that matches nowhere, is not contained. */
  lemma NotContained(s: string, t: string)
    requires |t| == 3
    requires forall i :: 0 <= i <= |s| - 3 ==> s[i] != t[0] || s[i + 1] != t[1] || s[i + 2] != t[2]
    ensures !Contains(s, t)
  {
    forall i | 0 <= i <= |s| - |t|
      ensures !OccursAt(s, t, i)
    {
      var w := s[i..i + 3];
      assert w[0] == s[i] && w[1] == s[i + 1] && w[2] == s[i + 2];
    }
  }

  /** The logger levels. */
  datatype Level = Trace | Debug | Info | Warn | Error

  /** The level names `log` recognises, exactly as written. */
  function LevelName(l: Level): (n: string)
  {
    match l
    case Trace => "TRACE"
    case Debug => "DEBUG"
    case Info => "INFO"
    case Warn => "WARN"
    case Error => "ERROR"
  }

  /** The level a name selects in `log`'s switch, if any. */
  function LevelNamed(n: string): (l: Optional<Level>)
    ensures l.Of? ==> LevelName(l.get) == n
  {
    if n == "TRACE" then Of(Trace)
    else if n == "DEBUG" then Of(Debug)
    else if n == "INFO" then Of(Info)
    else if n == "WARN" then Of(Warn)
    else if n == "ERROR" then Of(Error)
    else Empty
  }

  /** Every level is selected by its own name and by no other. */
  lemma LevelNamedInverse(l: Level, n: string)
    ensures LevelNamed(LevelName(l)) == Of(l)
    ensures LevelNamed(n) == Of(l) <==> n == LevelName(l)
  {
  }

  /** One call on the logger: a level, an SLF4J format with `{}` placeholders, and its arguments. */
  datatype LogCall = LogCall(level: Level, format: string, args: seq<string>)

  const Format: string := "[{}] {}"
  const FallbackFormat: string := "{}: [{}] {}"

  /** `Logger.log(level, target, message)`. */
  function Log(level: string, target: string, message: string): (c: LogCall)
    ensures LevelNamed(level).Of? ==> c == LogCall(LevelNamed(level).get, Format, [target, message])
    ensures LevelNamed(level).Empty? ==> c == LogCall(Debug, FallbackFormat, [level, target, message])
  {
    match LevelNamed(level)
    case Of(l) => LogCall(l, Format, [target, message])
    case Empty => LogCall(Debug, FallbackFormat, [level, target, message])
  }

  /** SLF4J's substitution: each `{}` of the format takes the next argument; spare `{}` stay as they are. */
  function Render(format: string, args: seq<string>): string
    decreases |format|
  {
    if |format| >= 2 && format[0] == '{' && format[1] == '}' then
      if args == [] then "{}" + Render(format[2..], args)
      else args[0] + Render(format[2..], args[1..])
    else if format == [] then []
    else [format[0]] + Render(format[1..], args)
  }

  /** The text a call shows. */
  function Text(c: LogCall): string
  {
    Render(c.format, c.args)
  }

  /** A recognised level logs "[target] message" at that level. */
  lemma {:induction false} KnownLevelText(l: Level, target: string, message: string)
    ensures Log(LevelName(l), target, message).level == l
    ensures Text(Log(LevelName(l), target, message)) == "[" + target + "] " + message
  {
    LevelNamedInverse(l, LevelName(l));
    FormatRenders(target, message);
  }

  /**
   * Any other level string goes to debug as "level: [target] message"; lower-case
   * "info" is one such string.
   */
  lemma {:induction false} OtherLevelText(level: string, target: string, message: string)
    requires LevelNamed(level).Empty?
    ensures Log(level, target, message).level == Debug
    ensures Text(Log(level, target, message)) == level + ": [" + target + "] " + message
    ensures LevelNamed("info").Empty?
  {
    FallbackRenders(level, target, message);
  }

  /** A character other than `{` is copied. */
  lemma RenderChar(c: char, format: string, args: seq<string>)
    requires c != '{'
    ensures Render([c] + format, args) == [c] + Render(format, args)
  {
    assert ([c] + format)[1..] == format;
  }

  /** A `{}` takes the next argument. */
  lemma RenderHole(format: string, arg: string, args: seq<string>)
    ensures Render("{}" + format, [arg] + args) == arg + Render(format, args)
  {
    assert ("{}" + format)[2..] == format;
    assert ([arg] + args)[1..] == args;
  }

  lemma {:induction false} FormatRenders(target: string, message: string)
    ensures Render(Format, [target, message]) == "[" + target + "] " + message
  {
    calc {
      Render(Format, [target, message]);
      { assert Format == ['['] + "{}] {}"; RenderChar('[', "{}] {}", [target, message]); }
      ['['] + Render("{}] {}", [target, message]);
      { assert "{}] {}" == "{}" + "] {}" && [target, message] == [target] + [message];
        RenderHole("] {}", target, [message]); }
      ['['] + (target + Render("] {}", [message]));
      { assert "] {}" == [']'] + " {}"; RenderChar(']', " {}", [message]);
        assert " {}" == [' '] + "{}"; RenderChar(' ', "{}", [message]);
        assert "{}" == "{}" + "" && [message] == [message] + []; RenderHole("", message, []); }
      ['['] + (target + ([']'] + ([' '] + (message + Render("", [])))));
      "[" + target + "] " + message;
    }
  }

  lemma {:induction false} FallbackRenders(level: string, target: string, message: string)
    ensures Render(FallbackFormat, [level, target, message]) == level + ": [" + target + "] " + message
  {
    calc {
      Render(FallbackFormat, [level, target, message]);
      { assert FallbackFormat == "{}" + ": [{}] {}" && [level, target, message] == [level] + [target, message];
        RenderHole(": [{}] {}", level, [target, message]); }
      level + Render(": [{}] {}", [target, message]);
      { assert ": [{}] {}" == [':'] + " [{}] {}"; RenderChar(':', " [{}] {}", [target, message]);
        assert " [{}] {}" == [' '] + Format; RenderChar(' ', Format, [target, message]); }
      level + ([':'] + ([' '] + Render(Format, [target, message])));
      { FormatRenders(target, message); }
      level + ([':'] + ([' '] + ("[" + target + "] " + message)));
      { assert [':'] + ([' '] + ['[']) == ": ["; }
      level + ": [" + target + "] " + message;
    }
  }
}

/**
 * How the launcher spawns a shell: the shell's name, the strict-mode flags it
 * adds for zsh and bash, and the argument vector and environment of the
 * child (src/runner.rs:87-130, 343-346; the same code is in src/lib.rs and
 * extra/lib_arcsend.rs).
 */
module Shell {
  import opened Wrappers

  const CacheDirVariable := "JAIME_CACHE_DIR"

  /** The shell: the configured one, else `$SHELL`, else `sh`. */
  function ChooseShell(configured: Option<string>, fromEnvironment: Option<string>): (shell: string)
    ensures configured.Some? ==> shell == configured.value
    ensures configured.None? && fromEnvironment.Some? ==> shell == fromEnvironment.value
    ensures configured.None? && fromEnvironment.None? ==> shell == "sh"
  {
    match configured
    case Some(s) => s
    case None => if fromEnvironment.Some? then fromEnvironment.value else "sh"
  }

  /** The flags added before `-c` for shells that support a strict mode. */
  function StrictFlags(shell: string): (flags: seq<string>)
    ensures forall k :: 0 <= k < |flags| ==> |flags[k]| > 1 && flags[k][0] == '-'
    ensures "-c" !in flags
    ensures shell != "zsh" && shell != "bash" ==> flags == []
  {
    if shell == "zsh" then ["--shwordsplit", "--no-unset", "--errexit"]
    else if shell == "bash" then ["-e", "-u"]
    else []
  }

  /** The argument vector of `Command::new(shell)...arg("-c").arg(cmd)`:
      the program, its strict flags, then `-c` and the command as one
      untouched argument. */
  function ShellArgv(shell: string, command: string): (argv: seq<string>)
    ensures |argv| >= 3 && argv[0] == shell
    ensures argv[|argv| - 2] == "-c" && argv[|argv| - 1] == command
    ensures argv[1..|argv| - 2] == StrictFlags(shell)
  {
    [shell] + StrictFlags(shell) + ["-c", command]
  }

  /** A child process: its argument vector and the variables added to its
      environment. */
  datatype Process = Process(argv: seq<string>, environment: seq<(string, string)>)

  /** The child spawned for a command, for capture and interactive runs
      alike: the cache directory is exported as `JAIME_CACHE_DIR`. */
  function ShellProcess(shell: string, command: string, cacheDirectory: string): (p: Process)
    ensures p.argv == ShellArgv(shell, command)
    ensures p.environment == [(CacheDirVariable, cacheDirectory)]
  {
    Process(ShellArgv(shell, command), [(CacheDirVariable, cacheDirectory)])
  }

  /** The full table: zsh gets `--shwordsplit --no-unset --errexit`, bash
      gets `-e -u`, every other shell only `-c`. */
  lemma ShellArgvTable(shell: string, command: string)
    ensures shell == "zsh" ==>
      ShellArgv(shell, command) == ["zsh", "--shwordsplit", "--no-unset", "--errexit", "-c", command]
    ensures shell == "bash" ==> ShellArgv(shell, command) == ["bash", "-e", "-u", "-c", command]
    ensures shell != "zsh" && shell != "bash" ==> ShellArgv(shell, command) == [shell, "-c", command]
  {
  }

  /** The command can be read back from the argument vector: it is passed
      to the shell verbatim, as the last argument. */
  lemma CommandRecoverable(shell: string, c1: string, c2: string)
    requires ShellArgv(shell, c1) == ShellArgv(shell, c2)
    ensures c1 == c2
  {
    var a := ShellArgv(shell, c1);
    assert a[|a| - 1] == c1;
  }
}

/** Startup configuration read from the process environment. */
module Config {
  import opened Wrappers
  import opened JavaNumbers

  /** `requiredEnvar(name, def)`: the variable's value if it is set, else the
      default if there is one (`None` stands for a `null` default), else the
      message of the exception thrown. */
  function RequiredEnvar(env: map<string, string>, name: string, default: Option<string>)
    : (r: Result<string, string>)
    ensures name in env ==> r == Success(env[name])
    ensures name !in env && default.Some? ==> r == Success(default.value)
    ensures name !in env && default.None? ==> r == Failure("Expecting envar " + name)
  {
    if name !in env then
      if default.None? then Failure("Expecting envar " + name) else Success(default.value)
    else
      Success(env[name])
  }

  /** The lookup fails exactly when the variable is unset and there is no default;
      when it is set, the default plays no part. */
  lemma RequiredEnvarFailsIff(env: map<string, string>, name: string, default1: Option<string>, default2: Option<string>)
    ensures RequiredEnvar(env, name, default1).Failure? <==> name !in env && default1.None?
    ensures name in env ==> RequiredEnvar(env, name, default1) == RequiredEnvar(env, name, default2)
  {
  }

  /** The configuration the runtime starts with. */
  datatype Settings = Settings(port: Int32, funcName: string, entryPoint: string, logDir: string)

  /** The message of the `NumberFormatException` `Integer.parseInt` throws for `text`. */
  function NumberFormatMessage(text: string): string {
    "For input string: \"" + text + "\""
  }

  /** `configure()`: `BOLT_PORT` (default "80") parsed as an `int`, then
      `BN_FUNCTION` and `BN_ENTRYPOINT` (required), then `BN_LOGDIR` (default
      "/logs"); the first failure stops startup.  `parseInt` is `Integer.parseInt`,
      `None` where it throws. */
  function Configure(env: map<string, string>, parseInt: string -> Option<Int32>): (r: Result<Settings, string>)
    ensures var portText := if "BOLT_PORT" in env then env["BOLT_PORT"] else "80";
      && (r.Success? <==> parseInt(portText).Some? && "BN_FUNCTION" in env && "BN_ENTRYPOINT" in env)
      && (parseInt(portText).None? ==> r == Failure(NumberFormatMessage(portText)))
      && (parseInt(portText).Some? && "BN_FUNCTION" !in env ==> r == Failure("Expecting envar BN_FUNCTION"))
      && (parseInt(portText).Some? && "BN_FUNCTION" in env && "BN_ENTRYPOINT" !in env
          ==> r == Failure("Expecting envar BN_ENTRYPOINT"))
      && (r.Success? ==>
          && r.value.port == parseInt(portText).value
          && r.value.funcName == env["BN_FUNCTION"]
          && r.value.entryPoint == env["BN_ENTRYPOINT"]
          && r.value.logDir == (if "BN_LOGDIR" in env then env["BN_LOGDIR"] else "/logs"))
  {
    assert "Expecting envar " + "BN_FUNCTION" == "Expecting envar BN_FUNCTION";
    assert "Expecting envar " + "BN_ENTRYPOINT" == "Expecting envar BN_ENTRYPOINT";
    var portText := RequiredEnvar(env, "BOLT_PORT", Some("80")).value;
    var port := parseInt(portText);
    var funcName := RequiredEnvar(env, "BN_FUNCTION", None);
    var entryPoint := RequiredEnvar(env, "BN_ENTRYPOINT", None);
    var logDir := RequiredEnvar(env, "BN_LOGDIR", Some("/logs"));
    if port.None? then Failure(NumberFormatMessage(portText))
    else if funcName.Failure? then Failure(funcName.error)
    else if entryPoint.Failure? then Failure(entryPoint.error)
    else Success(Settings(port.value, funcName.value, entryPoint.value, logDir.value))
  }

  /** A port `Integer.parseInt` rejects stops startup even when every required
      variable is set. */
  lemma BadPortStopsStartup(env: map<string, string>, parseInt: string -> Option<Int32>)
    requires "BOLT_PORT" in env && parseInt(env["BOLT_PORT"]).None?
    requires "BN_FUNCTION" in env && "BN_ENTRYPOINT" in env
    ensures Configure(env, parseInt).Failure?
    ensures Configure(env, parseInt).error == NumberFormatMessage(env["BOLT_PORT"])
  {
  }
}

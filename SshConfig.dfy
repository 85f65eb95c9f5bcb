/**
 * The SSH settings of the MCP server (mcp-server/src/config/ssh.ts): where
 * the deploy keys and the client configuration live, the configuration text
 * and the `ssh` command line git is given. The environment and the home
 * directory are parameters; the home directory is taken as a normalised
 * absolute path.
 */
module SshConfig {
  import opened Js
  import opened PosixPath

  type Env = map<string, string>

  /** The defaults all sit in `~/.ssh/`. */
  const SshDirectory: string := "~/.ssh/"
  const DefaultGithubKey: string := SshDirectory + "github_deploy_key"
  const DefaultAzureKey: string := SshDirectory + "azure_deploy_key"
  const DefaultSshConfig: string := SshDirectory + "config"

  /** `process.env[name]`: a value when the variable is set, even to the
      empty string. */
  function EnvVar(env: Env, name: string): (r: Option<string>)
    ensures r.Some? <==> name in env
    ensures r.Some? ==> r.value == env[name]
  {
    if name in env then Some(env[name]) else None
  }

  /** `path.join(home, rest)`: the segments of `rest` walked from the home
      directory, keeping a trailing slash of a non-empty `rest` unless the
      result is the root. */
  function JoinHome(home: seq<string>, rest: string): (r: string)
    requires Normal(home)
    ensures |r| > 0 && r[0] == '/'
  {
    var segs := Walk(home, Split(rest, '/'));
    Render(segs) + (if |rest| > 0 && rest[|rest| - 1] == '/' && |segs| > 0 then "/" else "")
  }

  /** `resolveHomePath(p)` */
  function ResolveHomePath(home: seq<string>, p: string): (r: string)
    requires Normal(home)
    ensures !StartsWith(p, "~/") && p != "~" ==> r == p
    ensures StartsWith(p, "~/") || p == "~" ==> IsAbsolute(r)
  {
    if StartsWith(p, "~/") then JoinHome(home, p[2..])
    else if p == "~" then Render(home)
    else p
  }

  /** `getGithubKeyPath()`: `GITHUB_SSH_KEY_PATH ?? SSH_PRIVATE_KEY_PATH ??`
      the default, expanded. */
  function GithubKeyPath(env: Env, home: seq<string>): (r: string)
    requires Normal(home)
    ensures "GITHUB_SSH_KEY_PATH" in env ==> r == ResolveHomePath(home, env["GITHUB_SSH_KEY_PATH"])
    ensures "GITHUB_SSH_KEY_PATH" !in env && "SSH_PRIVATE_KEY_PATH" in env
      ==> r == ResolveHomePath(home, env["SSH_PRIVATE_KEY_PATH"])
    ensures "GITHUB_SSH_KEY_PATH" !in env && "SSH_PRIVATE_KEY_PATH" !in env
      ==> r == ResolveHomePath(home, DefaultGithubKey)
  {
    var chosen := EnvVar(env, "GITHUB_SSH_KEY_PATH");
    var fallback := EnvVar(env, "SSH_PRIVATE_KEY_PATH");
    ResolveHomePath(home, if chosen.Some? then chosen.value else fallback.GetOr(DefaultGithubKey))
  }

  /** `getAzureKeyPath()` */
  function AzureKeyPath(env: Env, home: seq<string>): (r: string)
    requires Normal(home)
    ensures "AZURE_SSH_KEY_PATH" in env ==> r == ResolveHomePath(home, env["AZURE_SSH_KEY_PATH"])
    ensures "AZURE_SSH_KEY_PATH" !in env ==> r == ResolveHomePath(home, DefaultAzureKey)
  {
    ResolveHomePath(home, EnvVar(env, "AZURE_SSH_KEY_PATH").GetOr(DefaultAzureKey))
  }

  /** `getConfigPath()` */
  function ConfigPath(env: Env, home: seq<string>): (r: string)
    requires Normal(home)
    ensures "SSH_CONFIG_PATH" in env ==> r == ResolveHomePath(home, env["SSH_CONFIG_PATH"])
    ensures "SSH_CONFIG_PATH" !in env ==> r == ResolveHomePath(home, DefaultSshConfig)
  {
    ResolveHomePath(home, EnvVar(env, "SSH_CONFIG_PATH").GetOr(DefaultSshConfig))
  }

  /** The lines of the configuration for two deploy keys. */
  function ConfigLinesOf(githubKey: string, azureKey: string): seq<string> {
    [ "Host github.com",
      "  IdentityFile " + githubKey,
      "  StrictHostKeyChecking no",
      "",
      "Host ssh.dev.azure.com",
      "  IdentityFile " + azureKey,
      "  StrictHostKeyChecking no",
      ""]
  }

  /** The configuration text: the template's lines, each ended by a line
      break. */
  function ConfigText(githubKey: string, azureKey: string): string {
    Join(ConfigLinesOf(githubKey, azureKey), "\n")
  }

  /** `getSSHConfig()` */
  function SshConfigText(env: Env, home: seq<string>): (r: string)
    requires Normal(home)
  {
    ConfigText(GithubKeyPath(env, home), AzureKeyPath(env, home))
  }

  /** `getSshCommand(configPath)`: the given path, or the configuration path
      when none is given. Writing the configuration file on the way is not
      part of this model. */
  function SshCommand(configPath: Option<string>, env: Env, home: seq<string>): (r: string)
    requires Normal(home)
    ensures StartsWith(r, "ssh -F ")
    ensures configPath.Some? ==> r[|"ssh -F "|..] == configPath.value
    ensures configPath.None? ==> r[|"ssh -F "|..] == ConfigPath(env, home)
  {
    "ssh -F " + configPath.GetOr(ConfigPath(env, home))
  }

  // ---------------------------------------------------------------------------
  // Properties

  /** `~/a/b` lands under the home directory. */
  lemma {:induction false} HomeRelativeExpanded(home: seq<string>, segs: seq<string>)
    requires Normal(home) && Normal(segs) && |segs| > 0
    ensures ResolveHomePath(home, "~/" + Join(segs, "/")) == Render(home + segs)
  {
    var p := "~/" + Join(segs, "/");
    assert p[..2] == "~/" && p[2..] == Join(segs, "/");
    SplitJoin(segs, '/');
    WalkSegments(home, segs);
    var last := segs[|segs| - 1];
    JoinLast(segs);
    assert Join(segs, "/")[|Join(segs, "/")| - 1] == last[|last| - 1] != '/';
  }

  lemma {:induction false} JoinLast(segs: seq<string>)
    requires Normal(segs) && |segs| > 0
    ensures |Join(segs, "/")| > 0
    ensures var j := Join(segs, "/"); var last := segs[|segs| - 1]; j[|j| - 1] == last[|last| - 1]
    decreases |segs|
  {
    if |segs| > 1 {
      JoinLast(segs[1..]);
    }
  }

  /** `~` alone is the home directory. */
  lemma HomeItself(home: seq<string>)
    requires Normal(home)
    ensures ResolveHomePath(home, "~") == Render(home)
  {
  }

  /** `??` precedence: a variable set to the empty string still wins, and
      the empty path expands to nothing. */
  lemma EmptyGithubVariableWins(env: Env, home: seq<string>)
    requires Normal(home)
    requires "GITHUB_SSH_KEY_PATH" in env && env["GITHUB_SSH_KEY_PATH"] == ""
    ensures GithubKeyPath(env, home) == ""
  {
  }

  /** With no variable set, every path is under `~/.ssh`. */
  lemma DefaultGithubKeyPath(env: Env, home: seq<string>)
    requires Normal(home)
    requires "GITHUB_SSH_KEY_PATH" !in env && "SSH_PRIVATE_KEY_PATH" !in env
    ensures GithubKeyPath(env, home) == Render(home + [".ssh", "github_deploy_key"])
  {
    UnderSsh(home, "github_deploy_key");
  }

  lemma DefaultAzureKeyPath(env: Env, home: seq<string>)
    requires Normal(home)
    requires "AZURE_SSH_KEY_PATH" !in env
    ensures AzureKeyPath(env, home) == Render(home + [".ssh", "azure_deploy_key"])
  {
    UnderSsh(home, "azure_deploy_key");
  }

  lemma DefaultConfigPath(env: Env, home: seq<string>)
    requires Normal(home)
    requires "SSH_CONFIG_PATH" !in env
    ensures ConfigPath(env, home) == Render(home + [".ssh", "config"])
  {
    UnderSsh(home, "config");
  }

  lemma UnderSsh(home: seq<string>, name: string)
    requires Normal(home) && IsSegment(name)
    ensures ResolveHomePath(home, SshDirectory + name) == Render(home + [".ssh", name])
  {
    var segs := [".ssh", name];
    assert IsSegment(".ssh");
    assert Normal(segs) by {
      assert segs[0] == ".ssh" && segs[1] == name;
    }
    assert segs[1..] == [name];
    assert Join(segs[1..], "/") == name;
    assert Join(segs, "/") == ".ssh" + "/" + name;
    var path := SshDirectory + name;
    assert path == "~/" + Join(segs, "/");
    HomeRelativeExpanded(home, segs);
    assert ResolveHomePath(home, path) == Render(home + segs);
  }

  /** The lines of the configuration: a github.com block with the GitHub key
      and an ssh.dev.azure.com block with the Azure key, each disabling host
      key checking. Key paths holding a line break would add lines. */
  lemma ConfigLines(githubKey: string, azureKey: string)
    requires '\n' !in githubKey && '\n' !in azureKey
    ensures var lines := Split(ConfigText(githubKey, azureKey), '\n');
      && |lines| == 8
      && lines[0] == "Host github.com" && lines[1] == "  IdentityFile " + githubKey
      && lines[4] == "Host ssh.dev.azure.com" && lines[5] == "  IdentityFile " + azureKey
      && lines[2] == lines[6] == "  StrictHostKeyChecking no"
  {
    var lines := ConfigLinesOf(githubKey, azureKey);
    assert '\n' !in "  IdentityFile ";
    assert forall i :: 0 <= i < |lines| ==> '\n' !in lines[i];
    SplitJoin(lines, '\n');
  }
}

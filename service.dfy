/** The command restart_service runs, and the privilege rule it shares with
    the package-manager bootstrap. */
module Service {

  const SUDO: string := "sudo"

  /** systemctl restart of the proxy server's unit. */
  const RESTART_ARGS: seq<string> := ["systemctl", "restart", "hysteria-server.service"]

  /** A command as run under effective uid euid: elevated through sudo
      unless the process already runs as root (uid 0). */
  function Privileged(euid: nat, cmd: seq<string>): (r: seq<string>)
    ensures |r| == if euid == 0 then |cmd| else |cmd| + 1
    ensures r[|r| - |cmd|..] == cmd
    ensures euid != 0 ==> r[0] == SUDO
  {
    if euid == 0 then cmd else [SUDO] + cmd
  }

  /** The command list restart_service hands to subprocess.run. */
  function RestartCommand(euid: nat): seq<string> {
    Privileged(euid, RESTART_ARGS)
  }

  /** The restart command starts with sudo exactly when the uid is not 0, and
      always ends with the systemctl invocation. */
  lemma RestartCommandElevatesExactlyWhenNotRoot(euid: nat)
    ensures RestartCommand(euid)[0] == SUDO <==> euid != 0
    ensures RestartCommand(euid)[|RestartCommand(euid)| - 3..] == RESTART_ARGS
  {
  }
}

/** Agent provisioning: validate the host record, build the shell script
    that installs or updates the status agent, run it once over SSH and map
    the outcome onto a `{status, data}` reply. The SSH call is supplied as
    its outcome. */
module Servers {
  import opened Common
  import opened Text
  import Ssh

  /** `server.data.api`: the agent's key and port, as they are rendered into
      the script. */
  datatype Api = Api(key: string, port: string)

  /** `server.data`; `None` is a missing (or otherwise falsy) field. */
  datatype ServerData = ServerData(ssh: Option<Ssh.KeyValue>, api: Option<Api>)

  /** A host record as passed in by the routes. */
  datatype HostRecord = HostRecord(data: Option<ServerData>)

  /** How the awaited `ssh.Exec` call ended. */
  datatype CallOutcome = Resolved(result: Ssh.ExecResult) | Rejected(error: string)

  /** `{status, data}`. */
  datatype Reply = Reply(status: int, data: string)

  /** The one remote call a provisioning operation makes. */
  datatype RemoteCall = RemoteCall(credential: Ssh.KeyValue, script: string)

  /** What an operation does: the call it makes (if any) and its reply. */
  datatype Provision = Provision(call: Option<RemoteCall>, reply: Reply)

  const InvalidInput: string := "Invalid input data"
  const Installed: string := "安装成功"
  const InstallFailed: string := "安装失败/SSH连接失败"
  const Updated: string := "更新成功"
  const UpdateFailed: string := "更新失败/SSH连接失败"

  /** Where the agent binary is installed. */
  const BinPath: string := "/usr/bin/neko-status"

  /** The validation both operations start with: a record with `data`,
      `data.ssh` and `data.api`, and a non-empty download URL. */
  predicate ValidInput(server: Option<HostRecord>, url: string) {
    && server.Some?
    && server.value.data.Some?
    && server.value.data.value.ssh.Some?
    && server.value.data.value.api.Some?
    && url != ""
  }

  // ---- scripts -----------------------------------------------------------------

  /** A line break followed by the script's four-space indentation. */
  const Indent: string := "\n    "

  const InstallHead: string :=
    Indent + "wget --version || yum install wget -y || apt-get install wget -y" + Indent + BinPath + " -v || ("
  const InstallMid: string :=
    " && chmod +x " + BinPath + ")" + Indent + "systemctl stop nekonekostatus" + Indent
    + "mkdir -p /etc/neko-status/" + Indent + "echo \""
  const ConfigRedirect: string := "\" > /etc/neko-status/config.yaml"
  const ServiceSetup: string :=
    "\n    systemctl stop nekonekostatus\n    echo \"[Unit]\n    Description=nekonekostatus\n\n    [Service]\n    Restart=always\n    RestartSec=5\n    ExecStart=/usr/bin/neko-status -c /etc/neko-status/config.yaml\n\n    [Install]\n    WantedBy=multi-user.target\" > /etc/systemd/system/nekonekostatus.service\n    systemctl daemon-reload\n    systemctl start nekonekostatus\n    systemctl enable nekonekostatus"

  /** The agent's configuration file text. */
  function ConfigText(key: string, port: string): string {
    "key: " + key + "\n    port: " + port + "\n    debug: false"
  }

  /** The install script, with its indentation as written. */
  function InstallScript(url: string, key: string, port: string): string {
    InstallTemplate(InstallHead, InstallMid, ServiceSetup, url, key, port)
  }

  /** The shape of the install script: a fixed head, the download, a fixed
      middle, the configuration file and a fixed service setup. */
  function InstallTemplate(head: string, mid: string, setup: string, url: string, key: string, port: string): string {
    head + Download(url) + mid + ConfigText(key, port) + ConfigRedirect + setup
  }

  /** The download command both scripts use. */
  function Download(url: string): string {
    "wget " + url + " -O " + BinPath
  }

  /** The update script, with its indentation as written. */
  function UpdateScript(url: string): string {
    Indent + RemoveBinary + Indent + Download(url) + Indent + MakeExecutable
  }

  const RemoveBinary: string := "rm -f " + BinPath
  const MakeExecutable: string := "chmod +x " + BinPath

  /** The URL sits inside the download command. */
  lemma DownloadEmbeds(url: string)
    ensures OccursAt(url, Download(url), 5)
  {
    OccursAtEnd("wget ", url);
    OccursExtend(url, "wget " + url, 5, " -O ");
    OccursExtend(url, "wget " + url + " -O ", 5, BinPath);
  }

  /** The key and port sit in their lines of the configuration text. */
  lemma ConfigEmbeds(key: string, port: string)
    ensures OccursAt(key, ConfigText(key, port), 5)
    ensures OccursAt(port, ConfigText(key, port), 5 + |key| + 11)
  {
    var a := "key: " + key;
    var b := a + "\n    port: ";
    OccursAtEnd("key: ", key);
    OccursExtend(key, a, 5, "\n    port: ");
    OccursExtend(key, b, 5, port);
    OccursExtend(key, b + port, 5, "\n    debug: false");
    OccursAtEnd(b, port);
    OccursExtend(port, b + port, |b|, "\n    debug: false");
  }

  /** Where the second, fourth and fifth of six concatenated pieces sit. */
  lemma PiecesAt(a: string, b: string, c: string, d: string, e: string, f: string)
    ensures OccursAt(b, a + b + c + d + e + f, |a|)
    ensures OccursAt(d, a + b + c + d + e + f, |a| + |b| + |c|)
    ensures OccursAt(e, a + b + c + d + e + f, |a| + |b| + |c| + |d|)
  {
    var s1 := a + b;
    var s2 := s1 + c;
    var s3 := s2 + d;
    var s4 := s3 + e;
    OccursAtEnd(a, b);
    OccursExtend(b, s1, |a|, c);
    OccursExtend(b, s2, |a|, d);
    OccursExtend(b, s3, |a|, e);
    OccursExtend(b, s4, |a|, f);
    OccursAtEnd(s2, d);
    OccursExtend(d, s3, |s2|, e);
    OccursExtend(d, s4, |s2|, f);
    OccursAtEnd(s3, e);
    OccursExtend(e, s4, |s3|, f);
  }

  /** The install script downloads from the URL to the binary's path, and
      the configuration file it writes carries the API key and port. This
      holds whatever the text of the script's fixed fragments, so in
      particular for `InstallScript`. */
  lemma InstallScriptEmbeds(head: string, mid: string, setup: string, url: string, key: string, port: string)
    ensures var s := InstallTemplate(head, mid, setup, url, key, port);
      var c := |head| + |Download(url)| + |mid|;
      && OccursAt(Download(url), s, |head|)
      && OccursAt(url, s, |head| + 5)
      && OccursAt(ConfigText(key, port), s, c)
      && OccursAt(key, s, c + 5)
      && OccursAt(port, s, c + 5 + |key| + 11)
      && OccursAt(ConfigRedirect, s, c + |ConfigText(key, port)|)
  {
    var d := Download(url);
    var cfg := ConfigText(key, port);
    PiecesAt(head, d, mid, cfg, ConfigRedirect, setup);
    TemplateDownload(head, mid, setup, url, key, port);
    TemplateConfig(head, mid, setup, url, key, port);
  }

  lemma TemplateDownload(head: string, mid: string, setup: string, url: string, key: string, port: string)
    requires OccursAt(Download(url), InstallTemplate(head, mid, setup, url, key, port), |head|)
    ensures OccursAt(url, InstallTemplate(head, mid, setup, url, key, port), |head| + 5)
  {
    DownloadEmbeds(url);
    OccursWithin(url, Download(url), InstallTemplate(head, mid, setup, url, key, port), |head|, 5);
  }

  lemma TemplateConfig(head: string, mid: string, setup: string, url: string, key: string, port: string)
    requires OccursAt(ConfigText(key, port), InstallTemplate(head, mid, setup, url, key, port),
                      |head| + |Download(url)| + |mid|)
    ensures var s := InstallTemplate(head, mid, setup, url, key, port);
      var c := |head| + |Download(url)| + |mid|;
      OccursAt(key, s, c + 5) && OccursAt(port, s, c + 5 + |key| + 11)
  {
    var s := InstallTemplate(head, mid, setup, url, key, port);
    var cfg := ConfigText(key, port);
    var c := |head| + |Download(url)| + |mid|;
    ConfigEmbeds(key, port);
    OccursWithin(key, cfg, s, c, 5);
    OccursWithin(port, cfg, s, c, 5 + |key| + 11);
  }

  /** The update script first removes the binary and then downloads the URL
      to the same path. */
  lemma UpdateScriptOrder(url: string)
    ensures var s := UpdateScript(url);
      && OccursAt(RemoveBinary, s, |Indent|)
      && OccursAt(Download(url), s, |Indent| + |RemoveBinary| + |Indent|)
      && OccursAt(url, s, |Indent| + |RemoveBinary| + |Indent| + 5)
  {
    var d := Download(url);
    PiecesAt(Indent, RemoveBinary, Indent, d, Indent, MakeExecutable);
    DownloadEmbeds(url);
    OccursWithin(url, d, UpdateScript(url), |Indent| + |RemoveBinary| + |Indent|, 5);
  }

  // ---- operations ------------------------------------------------------------

  /** `initServer(server, url)`: invalid input is answered without any
      remote call; otherwise the install script runs with the record's SSH
      credential, and the reply has status 1 exactly when the call resolved
      with `success: true`. */
  function InitServer(server: Option<HostRecord>, url: string, outcome: CallOutcome): (r: Provision)
    ensures !ValidInput(server, url) ==> r == Provision(None, Reply(0, InvalidInput))
    ensures ValidInput(server, url) ==>
      var d := server.value.data.value;
      r.call == Some(RemoteCall(d.ssh.value, InstallScript(url, d.api.value.key, d.api.value.port)))
    ensures ValidInput(server, url) ==>
      (r.reply.status == 1 <==> outcome.Resolved? && outcome.result.success)
    ensures ValidInput(server, url) ==>
      r.reply == (if r.reply.status == 1 then Reply(1, Installed) else Reply(0, InstallFailed))
  {
    if !ValidInput(server, url) then Provision(None, Reply(0, InvalidInput))
    else
      var d := server.value.data.value;
      var call := RemoteCall(d.ssh.value, InstallScript(url, d.api.value.key, d.api.value.port));
      match outcome
      case Resolved(res) =>
        if res.success then Provision(Some(call), Reply(1, Installed))
        else Provision(Some(call), Reply(0, InstallFailed))
      case Rejected(_) => Provision(Some(call), Reply(0, InstallFailed))
  }

  /** `updateServer(server, url)`: invalid input is answered without any
      remote call; otherwise the update script runs, and the reply has status
      1 whenever the call resolves, whatever its `success`; only a rejection
      gives status 0. */
  function UpdateServer(server: Option<HostRecord>, url: string, outcome: CallOutcome): (r: Provision)
    ensures !ValidInput(server, url) ==> r == Provision(None, Reply(0, InvalidInput))
    ensures ValidInput(server, url) ==>
      r.call == Some(RemoteCall(server.value.data.value.ssh.value, UpdateScript(url)))
    ensures ValidInput(server, url) ==> (r.reply.status == 1 <==> outcome.Resolved?)
    ensures ValidInput(server, url) ==>
      r.reply == (if r.reply.status == 1 then Reply(1, Updated) else Reply(0, UpdateFailed))
  {
    if !ValidInput(server, url) then Provision(None, Reply(0, InvalidInput))
    else
      var call := RemoteCall(server.value.data.value.ssh.value, UpdateScript(url));
      match outcome
      case Resolved(_) => Provision(Some(call), Reply(1, Updated))
      case Rejected(_) => Provision(Some(call), Reply(0, UpdateFailed))
  }

  /** The two operations validate alike, and an install that succeeds
      implies an update with the same outcome succeeds, but not conversely:
      a call that resolves with `success: false` fails the install and
      passes the update. */
  lemma InitStricterThanUpdate(server: Option<HostRecord>, url: string, outcome: CallOutcome)
    ensures InitServer(server, url, outcome).call.None? <==> UpdateServer(server, url, outcome).call.None?
    ensures InitServer(server, url, outcome).reply.status == 1 ==> UpdateServer(server, url, outcome).reply.status == 1
    ensures ValidInput(server, url) && outcome == Resolved(Ssh.ExecResult(false, "")) ==>
      InitServer(server, url, outcome).reply.status == 0 && UpdateServer(server, url, outcome).reply.status == 1
  {
  }

  /** Every reply of both operations has status 0 or 1 and a status of 1
      only comes with a remote call. */
  lemma RepliesAreBinary(server: Option<HostRecord>, url: string, outcome: CallOutcome)
    ensures InitServer(server, url, outcome).reply.status in {0, 1}
    ensures UpdateServer(server, url, outcome).reply.status in {0, 1}
    ensures InitServer(server, url, outcome).reply.status == 1 ==> InitServer(server, url, outcome).call.Some?
    ensures UpdateServer(server, url, outcome).reply.status == 1 ==> UpdateServer(server, url, outcome).call.Some?
  {
  }
}

/** The text of the setup script around its ten tokens. The filling theorems hold for every template
    of the right shape; the text is here to prove that the service's own template has it, namely that
    no literal holds an `@` and none begins or ends in a character that a token could claim. The
    pieces are short because the verifier reads a literal character by character. */
module SetupTemplate {
  import opened Replacing

  /** Text of the script, cut where no token can begin or end. */
  type SolidText = s: string | Solid(s) witness " "

  function Append(a: string, b: string): (r: string)
    requires Solid(a) && Solid(b)
    ensures Solid(r) && r == a + b
  {
    a + b
  }

  function Title(): SolidText {
    "; RustDesk setup for "
  }

  function Versions(): SolidText {
    Append(" - generated by the RustDesk API ",
    "server.\n; Installs RustDesk ")
  }

  function BetweenVersions(): SolidText {
    " ("
  }

  function Definitions1(): SolidText {
    Append(") silently and applies the server ",
    Append("settings.\n",
    Append("; Build: makensis rustdesk.nsi   ",
    "(see README.txt when this came in a ")))
  }

  function Definitions2(): SolidText {
    Append("build kit)\n",
    Append("!define APPNAME \"RustDeskInstaller\"\n",
    Append("!define MSI_FILE \"rustdesk.msi\"\n",
    "!define INSTALL_DIR ")))
  }

  function Definitions3(): SolidText {
    Append("\"C:\\Program Files\\RustDesk\"\n",
    Append("!define EXECUTABLE \"rustdesk.exe\"\n",
    "!define CONFIG_ARGS \"--config "))
  }

  function Definitions(): SolidText {
    Append(Definitions1(), Append(Definitions2(), Definitions3()))
  }

  function Shortcut(): SolidText {
    Append("\"\n!define UNINSTALL_SHORTCUT ",
    Append("\"${INSTALL_DIR}\\Uninstall",
    " RustDesk.lnk\"\n"))
  }

  function Output(): SolidText {
    "\nOutfile \""
  }

  function Mode(): SolidText {
    Append("\"\nRequestExecutionLevel ",
    "admin\nSilentInstall silent\n")
  }

  function Uninstalling1(): SolidText {
    Append("\nSection \"Install\"\n\n",
    Append("    UserInfo::GetAccountType\n",
    Append("    Pop $0\n    StrCmp $0 \"Admin\" ",
    "0 AdminRequired\n\n")))
  }

  function Uninstalling2(): SolidText {
    Append("    ; An installed RustDesk is ",
    Append("removed first, so the version ",
    Append("installed is the one chosen here.\n",
    "    IfFileExists ")))
  }

  function Uninstalling3(): SolidText {
    Append("\"${UNINSTALL_SHORTCUT}\" ",
    Append("0 SkipUninstall\n\n    ExecWait ",
    Append("'\"${INSTALL_DIR}\\${EXECUTABLE}\" ",
    "--uninstall'\n")))
  }

  function Uninstalling(): SolidText {
    Append(Uninstalling1(), Append(Uninstalling2(), Uninstalling3()))
  }

  function Unpacking(): SolidText {
    Append("    Sleep 5000\n\nSkipUninstall:\n",
    "    File /oname=$TEMP\\${MSI_FILE} \"")
  }

  function Installing1(): SolidText {
    Append("\"\n\n    ExecWait 'msiexec /i ",
    Append("\"$TEMP\\${MSI_FILE}\" ",
    Append("/qn INSTALLFOLDER=\"${INSTALL_DIR}\"",
    Append(" CREATESTARTMENUSHORTCUTS=\"N\"",
    " CREATEDESKTOPSHORTCUTS=\"Y\"' $0\n"))))
  }

  function Installing2(): SolidText {
    Append("    Delete $TEMP\\${MSI_FILE}\n",
    Append("    ; 0 = installed, 3010 = ",
    Append("installed and Windows wants a ",
    Append("restart.\n    StrCmp $0 0 Installed\n",
    "    StrCmp $0 3010 Installed\n"))))
  }

  function Installing3(): SolidText {
    Append("    Abort \"Installation ",
    Append("failed!\"\n\nInstalled:\n    Sleep 5000\n",
    Append("    ExecWait ",
    Append("'\"${INSTALL_DIR}\\${EXECUTABLE}\" ",
    "${CONFIG_ARGS}'\n\n    Sleep 5000\n"))))
  }

  function Installing4(): SolidText {
    Append("    ExecWait ",
    Append("'\"${INSTALL_DIR}\\${EXECUTABLE}\" ",
    "--install-service'\n"))
  }

  function Installing(): SolidText {
    Append(Installing1(), Append(Installing2(), Append(Installing3(), Installing4())))
  }

  function Ending(): SolidText {
    Append("    Goto Done\n\nAdminRequired:\n",
    Append("    MessageBox MB_ICONSTOP \"This ",
    Append("installer requires administrator ",
    Append("privileges!\"\n",
    "    Abort\n\nDone:\nSectionEnd\n"))))
  }

  /** A script with holes: the text around them and their names in the order they stand. */
  datatype Blanks = Blanks(literals: seq<string>, names: seq<string>)

  /** The tokens in the order they stand in the script. */
  function Names(): seq<string> {
    ["SERVER", "VERSION", "ARCH", "CONFIG", "FINALIZE", "OUTFILE", "ICON", "RESET", "MSI", "PASSWORD"]
  }

  /** The text before the `k`th token; the last piece ends the script. */
  function Literal(k: nat): SolidText
    requires k <= 10
  {
    if k == 0 then Title()
    else if k == 1 then Versions()
    else if k == 2 then BetweenVersions()
    else if k == 3 then Definitions()
    else if k == 4 then Shortcut()
    else LaterLiteral(k)
  }

  function LaterLiteral(k: nat): SolidText
    requires 5 <= k <= 10
  {
    if k == 5 then Output()
    else if k == 6 then Mode()
    else if k == 7 then Uninstalling()
    else if k == 8 then Unpacking()
    else if k == 9 then Installing()
    else Ending()
  }

  function Literals(): (parts: seq<SolidText>)
    ensures |parts| == 11
  {
    seq(11, k requires 0 <= k <= 10 => Literal(k))
  }

  lemma NamesAreNames()
    ensures |Names()| == 10 && forall i :: 0 <= i < |Names()| ==> Name(Names()[i])
  {
  }

  lemma AnyTemplate(parts: seq<SolidText>, names: seq<string>)
    requires |parts| == |names| + 1 && forall i :: 0 <= i < |names| ==> Name(names[i])
    ensures Template(parts, names)
  {
  }

  function Setup(): Blanks {
    Blanks(Literals(), Names())
  }

  lemma SetupIsTemplate()
    ensures Template(Setup().literals, Setup().names)
  {
    NamesAreNames();
    AnyTemplate(Literals(), Names());
  }
}

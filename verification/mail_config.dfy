/**
 * The configuration half of `send_assignment_email` in app.py: each SMTP
 * setting is looked up in the environment first and in the secret store
 * second, and an incompletely configured transport makes the function
 * return False before any connection is opened. The SMTP dialogue itself
 * (connect, STARTTLS, login, send) is a parameter: whether it succeeded.
 */
module MailConfig {
  import opened Wrappers
  import opened Records

  /** Environment variables (`os.getenv`) and Streamlit secrets (`st.secrets`), as strings. */
  type Env = map<string, string>
  type Secrets = map<string, string>

  const SMTP_SERVER: string := "SMTP_SERVER"
  const SMTP_PORT: string := "SMTP_PORT"
  const SMTP_EMAIL: string := "SMTP_EMAIL"
  const SMTP_PASSWORD: string := "SMTP_PASSWORD"
  const DEFAULT_SMTP_PORT: string := "587"

  /** A non-empty value for `key` is available from the environment or from the secrets. */
  predicate Provided(env: Env, secrets: Secrets, key: string) {
    (key in env && env[key] != "") || (key in secrets && secrets[key] != "")
  }

  /** `os.getenv(key) or (st.secrets[key] if key in st.secrets else None)` */
  function Setting(env: Env, secrets: Secrets, key: string): (r: Option<string>)
    ensures key in env && env[key] != "" ==> r == Some(env[key])
    ensures !(key in env && env[key] != "") && key in secrets ==> r == Some(secrets[key])
    ensures r.None? <==> !(key in env && env[key] != "") && key !in secrets
    ensures !Falsy(r) <==> Provided(env, secrets, key)
  {
    if key in env && env[key] != "" then Some(env[key])
    else if key in secrets then Some(secrets[key])
    else None
  }

  datatype SmtpSettings = SmtpSettings(
    server: Option<string>,
    port: string,
    sender: Option<string>,
    password: Option<string>)

  /** The four settings as `send_assignment_email` resolves them; the port defaults to 587. */
  function ResolveSmtp(env: Env, secrets: Secrets): (c: SmtpSettings)
    ensures (SMTP_PORT !in env || env[SMTP_PORT] == "") && SMTP_PORT !in secrets ==> c.port == DEFAULT_SMTP_PORT
    ensures (SMTP_PORT !in env || env[SMTP_PORT] == "") && SMTP_PORT in secrets ==> c.port == secrets[SMTP_PORT]
    ensures SMTP_PORT in env && env[SMTP_PORT] != "" ==> c.port == env[SMTP_PORT]
    ensures c.server == Setting(env, secrets, SMTP_SERVER)
    ensures c.sender == Setting(env, secrets, SMTP_EMAIL)
    ensures c.password == Setting(env, secrets, SMTP_PASSWORD)
  {
    SmtpSettings(
      Setting(env, secrets, SMTP_SERVER),
      Setting(env, secrets, SMTP_PORT).GetOr(DEFAULT_SMTP_PORT),
      Setting(env, secrets, SMTP_EMAIL),
      Setting(env, secrets, SMTP_PASSWORD))
  }

  /**
   * `smtp_server and sender_email and sender_password`, on the resolved
   * settings: each of the three has a non-empty value in the environment or
   * in the secrets.
   */
  predicate IsConfigured(env: Env, secrets: Secrets)
    ensures IsConfigured(env, secrets) <==>
              Provided(env, secrets, SMTP_SERVER) && Provided(env, secrets, SMTP_EMAIL) && Provided(env, secrets, SMTP_PASSWORD)
  {
    var c := ResolveSmtp(env, secrets);
    !Falsy(c.server) && !Falsy(c.sender) && !Falsy(c.password)
  }

  /** The port plays no part in the decision: whatever SMTP_PORT is set to, the answer is the same. */
  lemma PortIrrelevant(env: Env, secrets: Secrets, port: string)
    ensures IsConfigured(env[SMTP_PORT := port], secrets) == IsConfigured(env, secrets)
  {
    assert forall key :: key != SMTP_PORT ==> Provided(env[SMTP_PORT := port], secrets, key) == Provided(env, secrets, key);
  }

  datatype SendOutcome =
    | NotConfigured   // returned False before connecting
    | Sent            // returned True
    | SendFailed      // the SMTP dialogue raised; returned False

  /**
   * The result of `send_assignment_email`, given whether the SMTP dialogue
   * succeeds once attempted. The dialogue is attempted exactly when server,
   * sender and password each have a non-empty value in the environment or
   * the secrets; the port plays no part in the decision.
   */
  function AssignmentSend(env: Env, secrets: Secrets, delivered: bool): (o: SendOutcome)
    ensures o == NotConfigured <==>
              !(Provided(env, secrets, SMTP_SERVER) && Provided(env, secrets, SMTP_EMAIL)
                && Provided(env, secrets, SMTP_PASSWORD))
    ensures o == Sent <==> o != NotConfigured && delivered
  {
    if !IsConfigured(env, secrets) then NotConfigured
    else if delivered then Sent
    else SendFailed
  }
}

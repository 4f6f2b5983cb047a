/**
 * The demo cloud-login slot (src/app.rs, `CLOUD_CREDENTIALS`): one optional
 * (user, key) pair, set by the two login endpoints, cleared by logout and
 * read by the login check and by the cloud-model listing.
 */
module Cloud {
  import opened Wrappers
  import opened Strings

  datatype LoginResponse = LoginResponse(success: bool, message: string, apiKey: Option<string>)

  const DemoKey := "demo_key"
  const ConnectedMessage := "Connected (demo mode)"

  /** The providers the OAuth endpoint accepts. */
  predicate ValidProvider(provider: string)
  {
    provider == "google" || provider == "github" || provider == "email"
  }

  /** The demo user a provider logs in as. */
  function DemoUser(provider: string): string
  {
    match provider
    case "google" => "user@gmail.com"
    case "github" => "github_user"
    case "email" => "user@example.com"
    case _ => "demo_user"
  }

  /** The slot is one object here; the process-wide mutex around it is left out. */
  class Credentials {
    var slot: Option<(string, string)>

    constructor ()
      ensures slot == None
    {
      slot := None;
    }

    /**
     * `cloud_oauth_login`: an unknown provider is refused and the slot kept;
     * otherwise the provider's demo user is stored with the demo key.
     */
    method OAuthLogin(provider: string) returns (resp: LoginResponse)
      modifies this
      ensures resp.success <==> ValidProvider(provider)
      ensures !resp.success ==> resp == LoginResponse(false, "Invalid login provider", None) && slot == old(slot)
      ensures resp.success ==>
        && slot == Some((DemoUser(provider), DemoKey))
        && resp == LoginResponse(true, ConnectedMessage, Some(DemoUser(provider)))
    {
      if provider != "google" && provider != "github" && provider != "email" {
        resp := LoginResponse(false, "Invalid login provider", None);
        return;
      }
      var user := DemoUser(provider);
      slot := Some((user, DemoKey));
      resp := LoginResponse(true, ConnectedMessage, Some(user));
    }

    /**
     * `cloud_email_login`: a blank email or password is refused and the slot
     * kept; otherwise the trimmed email is stored with the demo key.
     */
    method EmailLogin(email: string, password: string) returns (resp: LoginResponse)
      modifies this
      ensures resp.success <==> !IsBlank(email) && !IsBlank(password)
      ensures !resp.success ==>
        resp == LoginResponse(false, "Email and password are required", None) && slot == old(slot)
      ensures resp.success ==>
        && slot == Some((Trim(email), DemoKey))
        && resp == LoginResponse(true, ConnectedMessage, Some(Trim(email)))
    {
      if Trim(email) == [] || Trim(password) == [] {
        resp := LoginResponse(false, "Email and password are required", None);
        return;
      }
      slot := Some((Trim(email), DemoKey));
      resp := LoginResponse(true, ConnectedMessage, Some(Trim(email)));
    }

    /** `cloud_logout`: empties the slot; always answers true. */
    method Logout() returns (ok: bool)
      modifies this
      ensures ok && slot == None
    {
      slot := None;
      ok := true;
    }

    /** `check_cloud_login`: the stored user, if any. */
    method CheckLogin() returns (user: Option<string>)
      ensures user.Some? <==> slot.Some?
      ensures user.Some? ==> user.value == slot.value.0
    {
      if slot.Some? {
        user := Some(slot.value.0);
      } else {
        user := None;
      }
    }

    /** The first step of `get_cloud_models`: the stored key, or none when logged out. */
    method ApiKey() returns (key: Option<string>)
      ensures key.Some? <==> slot.Some?
      ensures key.Some? ==> key.value == slot.value.1
    {
      if slot.Some? {
        key := Some(slot.value.1);
      } else {
        key := None;
      }
    }
  }

  /**
   * An email login, a check, a logout and a check on a fresh slot: the first
   * check sees the trimmed email exactly when the login was accepted, and the
   * check after logout sees nobody.
   */
  method EmailLoginThenLogout(email: string, password: string) returns (afterLogin: Option<string>, afterLogout: Option<string>)
    ensures afterLogin == if IsBlank(email) || IsBlank(password) then None else Some(Trim(email))
    ensures afterLogout == None
  {
    var c := new Credentials();
    var _ := c.EmailLogin(email, password);
    afterLogin := c.CheckLogin();
    var _ := c.Logout();
    afterLogout := c.CheckLogin();
  }

  /** A refused login does not log out whoever is logged in. */
  method RefusedLoginKeepsUser(provider: string) returns (user: Option<string>)
    ensures ValidProvider(provider) ==> user == Some(DemoUser(provider))
    ensures !ValidProvider(provider) ==> user == Some("user@gmail.com")
  {
    var c := new Credentials();
    var _ := c.OAuthLogin("google");
    var _ := c.OAuthLogin(provider);
    user := c.CheckLogin();
  }
}

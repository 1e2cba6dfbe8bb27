/** Roles and sign-in modes, and the text columns they are stored in. */
module Identity {
  import opened Util

  datatype Role = Admin | User

  datatype AuthMode = Plex | Local | Apple | Google | Workos

  function RoleText(r: Role): string {
    match r
    case Admin => "admin"
    case User => "user"
  }

  function ParseRole(s: string): Option<Role> {
    match s
    case "admin" => Some(Admin)
    case "user" => Some(User)
    case _ => None
  }

  function ModeText(m: AuthMode): string {
    match m
    case Plex => "plex"
    case Local => "local"
    case Apple => "apple"
    case Google => "google"
    case Workos => "workos"
  }

  function ParseMode(s: string): Option<AuthMode> {
    match s
    case "plex" => Some(Plex)
    case "local" => Some(Local)
    case "apple" => Some(Apple)
    case "google" => Some(Google)
    case "workos" => Some(Workos)
    case _ => None
  }

  lemma {:induction false} ParseOfText(r: Role, m: AuthMode)
    ensures ParseRole(RoleText(r)) == Some(r) && ParseMode(ModeText(m)) == Some(m)
  {
  }
}

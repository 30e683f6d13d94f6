/**
 * The Express response object as the controller drives it: every call the handlers make
 * on it is recorded, in order. Sending twice, which Express itself refuses, is recorded
 * like any other call.
 */
module Http {
  import opened UserEntity

  /** The user object of the /auth/me answer. */
  datatype UserView = UserView(
    id: Id,
    username: string,
    email: string,
    name: string,
    requiresDuo: bool,
    duoVerified: bool)

  datatype JsonBody =
    | UserBody(success: bool, user: UserView)
    | MessageBody(success: bool, message: string)
    | LogoutBody(success: bool, message: string, instructions: string)

  datatype CookieOptions = CookieOptions(httpOnly: bool, secure: bool)

  datatype Action =
    | SetStatus(code: int)
    | SendJson(body: JsonBody)
    | SetCookie(name: string, value: string, options: CookieOptions)
    | SendRedirect(url: string)
    | ClearCookie(name: string)

  class Response {
    var actions: seq<Action>

    constructor()
      ensures actions == []
    {
      actions := [];
    }

    method Status(code: int)
      modifies this
      ensures actions == old(actions) + [SetStatus(code)]
    {
      actions := actions + [SetStatus(code)];
    }

    method Json(body: JsonBody)
      modifies this
      ensures actions == old(actions) + [SendJson(body)]
    {
      actions := actions + [SendJson(body)];
    }

    method Cookie(name: string, value: string, options: CookieOptions)
      modifies this
      ensures actions == old(actions) + [SetCookie(name, value, options)]
    {
      actions := actions + [SetCookie(name, value, options)];
    }

    method Redirect(url: string)
      modifies this
      ensures actions == old(actions) + [SendRedirect(url)]
    {
      actions := actions + [SendRedirect(url)];
    }

    method ClearCookieNamed(name: string)
      modifies this
      ensures actions == old(actions) + [ClearCookie(name)]
    {
      actions := actions + [ClearCookie(name)];
    }
  }
}

/**
 * How the scripts read their environment-style configuration: a variable is
 * either unset (`None`, JavaScript's `undefined`) or a string, and `||`
 * replaces falsy values by a default.
 */
module Env {
  import opened Wrappers
  import opened Js

  /** JavaScript's ToString of a variable: `undefined` becomes the string "undefined". */
  function EnvText(v: Option<string>): string {
    if v.None? then "undefined" else v.value
  }

  /** "undefined" starts with no digit, so `parseInt` gives NaN. */
  lemma UndefinedIsNaN(s: string)
    requires s == "undefined"
    ensures ParseInt(s) == None
  {
    TrimStartAtNonSpace(s);
    assert !(s[0] == '-' || s[0] == '+');
    assert ParseDigits(s) == None;
  }

  /** `parseInt(process.env.X, 10)`, which reads the variable's text after ToString. */
  function ParseIntEnv(v: Option<string>): (r: Option<int>)
    ensures v.None? ==> r.None?
    ensures v.Some? ==> r == ParseInt(v.value)
  {
    if v.None? then None else ParseInt(v.value)
  }

  lemma ParseIntEnvOfText(v: Option<string>)
    ensures ParseIntEnv(v) == ParseInt(EnvText(v))
  {
    if v.None? {
      UndefinedIsNaN(EnvText(v));
    }
  }

  /** `n || d` for a Number: NaN and zero are falsy and give `d`; every other number is kept. */
  function NumberOr(n: Option<int>, d: int): (r: int)
    ensures d != 0 ==> r != 0
    ensures n.Some? && n.value != 0 ==> r == n.value
    ensures n.None? || n.value == 0 ==> r == d
  {
    if n.None? || n.value == 0 then d else n.value
  }

  /** `s || d` for a string: `undefined` and the empty string are falsy and give `d`. */
  function StringOr(s: Option<string>, d: string): (r: string)
    ensures d != [] ==> r != []
    ensures s.Some? && s.value != [] ==> r == s.value
    ensures s.None? || s.value == [] ==> r == d
  {
    if s.None? || s.value == [] then d else s.value
  }

  /** `process.env.FRONTEND_ENDPOINT || 'http://localhost:3000'`. */
  function FrontendEndpoint(v: Option<string>): (url: string)
    ensures url != []
    ensures v.Some? && v.value != [] ==> url == v.value
    ensures v.None? || v.value == [] ==> url == "http://localhost:3000"
  {
    StringOr(v, "http://localhost:3000")
  }
}

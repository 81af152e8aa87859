/**
 * The process environment as the IAM tools read it: `os.getenv(name,
 * default)` gives the value whenever the variable is set, even to the empty
 * string, and `not os.getenv(name)` holds when it is unset or empty.
 */
module Env {
  type Environment = map<string, string>

  /** `os.getenv(name, default)`. */
  function Getenv(env: Environment, name: string, default: string): string
  {
    if name in env then env[name] else default
  }

  /** `bool(os.getenv(name))`: set and not empty. */
  predicate Truthy(env: Environment, name: string)
  {
    name in env && env[name] != ""
  }
}

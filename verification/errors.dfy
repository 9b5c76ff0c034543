/** Every way a run of the scraper ends early. Nothing in the scraper rescues
    any of them: the first one aborts the whole run. */
module Errors {
  import opened JsonValues

  datatype Error =
      /** A value of the wrong kind reached an operation that cannot take it:
          `nil[:x]`, `nil + " "`, `nil.slice!(0, 10)`, `"..." + nil`, and so on
          (Ruby's NoMethodError and TypeError). `field` names the value. */
    | BadValue(field: string)
      /** `raise "unknown gender: ..."`. */
    | UnknownGender(code: Json)
      /** `mems.last[:hasMorePages]` on a page with no records. */
    | EmptyPage(page: nat)
      /** A page past the last one the endpoint serves was requested. */
    | NoSuchPage(page: nat)
}

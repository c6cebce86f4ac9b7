/** The text functions the formatters take from libraries and from helpers outside the
    modelled core, kept uninterpreted: the colour functions (`colorFns`), location and error
    formatting, `indent-string` and the `cli-table` layout. Each is a parameter, so every
    property proved about the formatters holds whatever these functions return. */
module Rendering {
  import opened Wrappers
  import opened Statuses
  import opened Events

  datatype Renderers = Renderers(
    color: (Status, string) -> string,           // colorFns[status]
    location: string -> string,                  // colorFns.location
    formatLocation: Location -> string,          // formatLocation
    show: Option<Exception> -> string,           // a colour function applied to a thrown value
    formatError: Option<Exception> -> string,    // formatError(exception, colorFns)
    indent: (string, nat) -> string,             // indentString(text, count)
    table: seq<seq<string>> -> string)           // a cli-table of the given cells
}

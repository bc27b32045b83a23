/** The text stream the report is written to (the file opened by
    `dump_project`); only `write` is used. */
module Output {

  class OutputFile {
    /** Everything written so far. */
    var text: string

    constructor ()
      ensures text == ""
    {
      text := "";
    }

    /** `out.write(s)`: appends `s`. */
    method Write(s: string)
      modifies this
      ensures text == old(text) + s
    {
      text := text + s;
    }
  }
}

/** The console as the program uses it: a trace of write calls. */
module Console {

  /** One call on the console: `Write` leaves the cursor on the line, `WriteLine` ends it. */
  datatype ConsoleCall = Write(text: string) | WriteLine(text: string)
}

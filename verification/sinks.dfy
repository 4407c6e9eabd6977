/** The output file of a log (`FileStream_Policy`): a name, the append flag
    given at registration, and an `std::ofstream` that opens on first use. */
module Sinks {

  /** `content` is the text written through the stream: while closed, what
      is on disk (which may predate the program); while open, everything
      written so far. Newline translation by a text-mode stream is not part
      of it. */
  datatype FileStream = FileStream(fileName: string, append: bool, open: bool, content: string)

  /** `Stream()`: opens the file if it is not open yet, keeping its content in
      append mode and truncating it otherwise; an open stream is left alone. */
  function Stream(fs: FileStream): (r: FileStream)
    ensures r.open && r.fileName == fs.fileName && r.append == fs.append
    ensures fs.open ==> r == fs
    ensures !fs.open && fs.append ==> r.content == fs.content
    ensures !fs.open && !fs.append ==> r.content == ""
  {
    if fs.open then fs
    else if fs.append then fs.(open := true)
    else fs.(open := true, content := "")
  }

  /** `Stream() << text`: the text lands after whatever the opened file holds. */
  function Write(fs: FileStream, text: string): (r: FileStream)
    ensures r.open && r.fileName == fs.fileName && r.append == fs.append
    ensures r.content == Stream(fs).content + text
  {
    var live := Stream(fs);
    live.(content := live.content + text)
  }

  /** `Stream().close()`: the file keeps what was written to it. */
  function Close(fs: FileStream): (r: FileStream)
    ensures !r.open && r.fileName == fs.fileName && r.content == fs.content
    ensures r.append == fs.append
  {
    fs.(open := false)
  }

  /** What the file holds once `buffer` has been written through it. */
  function Eventual(fs: FileStream, buffer: string): string
  {
    Stream(fs).content + buffer
  }

  /** Opening twice is opening once: repeated `Stream()` calls change nothing. */
  lemma StreamIdempotent(fs: FileStream)
    ensures Stream(Stream(fs)) == Stream(fs)
  {
  }

  /** Writing moves text from a buffer into the file without losing or
      duplicating any of it. */
  lemma WritePreservesEventual(fs: FileStream, buffer: string)
    ensures Eventual(Write(fs, buffer), "") == Eventual(fs, buffer)
  {
  }

  /** Concatenation regroups freely (used to chain text equations). */
  lemma AppendAssoc(a: string, b: string, c: string)
    ensures (a + b) + c == a + (b + c)
  {
  }
}

/** The working directory the pipeline writes into: the chart images and the
    report file. A file's content is either text or a rendered chart, which
    stays abstract (its title and the values it plots). */
module Files {

  datatype Content =
    | Text(text: string)
    | Chart(title: string, values: seq<string>)

  class Directory {
    /** The files of the directory, by name. */
    var files: map<string, Content>

    constructor (initial: map<string, Content>)
      ensures files == initial
    {
      files := initial;
    }

    /** Writes a whole file at once, replacing any file of that name
        (`plt.savefig`). */
    method Save(name: string, content: Content)
      modifies this
      ensures files == old(files)[name := content]
    {
      files := files[name := content];
    }

    /** Opens a file for writing: it now exists and is empty
        (`open(name, "w")`). */
    method Create(name: string)
      modifies this
      ensures files == old(files)[name := Text("")]
    {
      files := files[name := Text("")];
    }

    /** Appends text to a file opened for writing (`f.write`). */
    method Append(name: string, s: string)
      requires name in files && files[name].Text?
      modifies this
      ensures files == old(files)[name := Text(old(files[name].text) + s)]
    {
      files := files[name := Text(files[name].text + s)];
    }
  }
}

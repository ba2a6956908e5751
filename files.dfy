/** The local file system as the download sees it: the contents of every file
    by path, and which paths are currently open for writing. */
module Files {
  import opened Http

  class Disk {
    var files: map<string, seq<Byte>>
    var open: set<string>

    ghost predicate Valid()
      reads this
    {
      open <= files.Keys
    }

    /** `open(path, "wb")`: create or truncate the file and open it. */
    method Open(path: string)
      requires Valid()
      modifies this
      ensures Valid()
      ensures files == old(files)[path := []]
      ensures open == old(open) + {path}
    {
      files := files[path := []];
      open := open + {path};
    }

    /** `f.write(data)`: append to an open file. */
    method Write(path: string, data: seq<Byte>)
      requires Valid() && path in open
      modifies this`files
      ensures Valid()
      ensures files == old(files)[path := old(files)[path] + data]
    {
      files := files[path := files[path] + data];
    }

    /** Leaving the `with open(...)` block closes the file. */
    method Close(path: string)
      requires Valid()
      modifies this`open
      ensures Valid()
      ensures open == old(open) - {path}
    {
      open := open - {path};
    }
  }
}

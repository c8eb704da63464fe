// The state file of a detached media session. Files are inodes; the path is a
// link to one of them. An open descriptor keeps its inode whatever happens to
// the path.
module StateFile {
  import opened Wrappers

  datatype SessionState = Starting | Connecting | Attached | Detached | Errored

  predicate Terminal(s: SessionState) {
    s == Detached || s == Errored
  }

  /** Starting, connecting, attached, over. */
  function Rank(s: SessionState): nat {
    match s
    case Starting => 0
    case Connecting => 1
    case Attached => 2
    case Detached => 3
    case Errored => 3
  }

  /** The fields of a state record that decisions are taken on. */
  datatype Record = Record(pid: nat, state: SessionState)

  /** What an inode holds: bytes that do not parse, or a whole record. */
  datatype Content = Torn | Whole(record: Record)

  type Inode = nat

  datatype FileSystem = FileSystem(inodes: map<Inode, Content>, link: Option<Inode>, next: Inode)

  function NewInode(fs: FileSystem): FileSystem {
    fs.(inodes := fs.inodes[fs.next := Torn], next := fs.next + 1)
  }

  function Fill(fs: FileSystem, fd: Inode, record: Record): FileSystem {
    fs.(inodes := fs.inodes[fd := Whole(record)])
  }

  /** The result of parsing what a descriptor reads. */
  function Parse(fs: FileSystem, fd: Inode): Option<Record> {
    if fd in fs.inodes && fs.inodes[fd].Whole? then Some(fs.inodes[fd].record) else None
  }
}

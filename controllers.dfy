/**
 * The decision logic of controllers.py over an in-memory database and
 * upload directory. Hashing, password checking, filename sanitising and CSV
 * reading are parameters: bcrypt, werkzeug and pandas are not modelled.
 */
module Controllers {
  import opened Common
  import opened Decimal

  /** A row of the users table (models.py:4-10); `password` holds the hash. */
  datatype User = User(id: nat, username: string, password: string)

  /** A row of the files table (models.py:13-19). */
  datatype FileRecord = FileRecord(id: nat, filename: string, path: string, userId: nat)

  /** One part of a multipart request: the client's filename and the bytes. */
  datatype Upload = Upload(filename: string, content: seq<bv8>)

  /**
   * What reading a CSV file yields: its column names, a pandas ParserError,
   * or any other exception (a missing file, a file with no columns at all).
   */
  datatype CsvRead = Columns(names: seq<string>) | ParserError(message: string) | OtherError(message: string)

  /** One element of the "files" list: "error" is present only on failure. */
  datatype FileEntry = FileEntry(fileId: nat, filename: string, columns: seq<string>, error: Option<string>)

  datatype Body = Message(text: string) | AccessToken(identity: nat, expiresMinutes: nat) | FileList(files: seq<FileEntry>)

  /** A JSON response and its HTTP status code. */
  datatype Reply = Reply(body: Body, status: nat)

  const INVALID_CREDENTIALS: string := "Invalid username or password"
  const TOKEN_MINUTES: nat := 60
  const READ_ERROR_PREFIX: string := "Error reading file: "
  const COLUMNS_ERROR_PREFIX: string := "Error reading columns from file '"

  /** `User.query.filter_by(username=...).first()`: the first user of that name, in table order. */
  function FindUser(users: seq<User>, username: string): (r: Option<User>)
    ensures r.Some? ==> r.value in users && r.value.username == username
    ensures r.None? <==> forall u :: u in users ==> u.username != username
  {
    FirstWhere(users, (u: User) => u.username == username)
  }

  /** `User.query.get(id)`. */
  function FindUserById(users: seq<User>, id: nat): (r: Option<User>)
    ensures r.Some? ==> r.value in users && r.value.id == id
    ensures r.None? <==> forall u :: u in users ==> u.id != id
  {
    FirstWhere(users, (u: User) => u.id == id)
  }

  /** The unique constraint on `users.username` (models.py:8). */
  predicate UniqueUsernames(users: seq<User>)
  {
    forall i, j :: 0 <= i < j < |users| ==> users[i].username != users[j].username
  }

  predicate UniqueUserIds(users: seq<User>)
  {
    forall i, j :: 0 <= i < j < |users| ==> users[i].id != users[j].id
  }

  predicate UniqueFileIds(files: seq<FileRecord>)
  {
    forall i, j :: 0 <= i < j < |files| ==> files[i].id != files[j].id
  }

  function UserIds(users: seq<User>): set<nat>
  {
    set u | u in users :: u.id
  }

  /** With unique usernames, the lookup finds the one user of that name. */
  lemma {:induction false} FindUserFindsTheUser(users: seq<User>, u: User)
    requires UniqueUsernames(users)
    requires u in users
    ensures FindUser(users, u.username) == Some(u)
  {
    if users[0] != u {
      assert users[0].username != u.username by {
        var j :| 0 <= j < |users| && users[j] == u;
      }
      assert UniqueUsernames(users[1..]) by {
        forall i, j | 0 <= i < j < |users[1..]| ensures users[1..][i].username != users[1..][j].username {
          assert users[1..][i] == users[i + 1] && users[1..][j] == users[j + 1];
        }
      }
      FindUserFindsTheUser(users[1..], u);
    }
  }

  // ---------------------------------------------------------------------
  // login_user
  // ---------------------------------------------------------------------

  /**
   * login_user (controllers.py:44-75): an unknown name and a wrong password
   * get the same 401 reply; otherwise a token whose identity is the user's id.
   */
  function Login(users: seq<User>, username: string, password: string, checkpw: (string, string) -> bool): (r: Reply)
    ensures r == Reply(Message(INVALID_CREDENTIALS), 401) || r.status == 200
    ensures r.status == 200 <==> FindUser(users, username).Some? && checkpw(password, FindUser(users, username).value.password)
    ensures r.status == 200 ==> r.body == AccessToken(FindUser(users, username).value.id, TOKEN_MINUTES)
  {
    match FindUser(users, username)
    case None => Reply(Message(INVALID_CREDENTIALS), 401)
    case Some(user) =>
      if !checkpw(password, user.password) then Reply(Message(INVALID_CREDENTIALS), 401)
      else Reply(AccessToken(user.id, TOKEN_MINUTES), 200)
  }

  /**
   * Login succeeds exactly when some user of that name has a hash the
   * password checks against, and then the token names that user.
   */
  lemma LoginSucceedsIffCredentialsMatch(users: seq<User>, username: string, password: string, checkpw: (string, string) -> bool)
    requires UniqueUsernames(users)
    ensures Login(users, username, password, checkpw).status == 200 <==>
      exists u :: u in users && u.username == username && checkpw(password, u.password)
    ensures forall u :: u in users && u.username == username && checkpw(password, u.password) ==>
      Login(users, username, password, checkpw) == Reply(AccessToken(u.id, TOKEN_MINUTES), 200)
  {
    forall u | u in users && u.username == username {
      FindUserFindsTheUser(users, u);
    }
  }

  /** After registering, the same credentials log in as the new user. */
  lemma {:induction false} RegisteredUserCanLogIn(users: seq<User>, id: nat, username: string, password: string,
                                                   salt: string, hashpw: (string, string) -> string,
                                                   checkpw: (string, string) -> bool)
    requires FindUser(users, username).None?
    requires checkpw(password, hashpw(password, salt))
    ensures Login(users + [User(id, username, hashpw(password, salt))], username, password, checkpw)
         == Reply(AccessToken(id, TOKEN_MINUTES), 200)
  {
    var added := users + [User(id, username, hashpw(password, salt))];
    FindNewUser(users, User(id, username, hashpw(password, salt)));
  }

  lemma {:induction false} FindNewUser(users: seq<User>, u: User)
    requires FindUser(users, u.username).None?
    ensures FindUser(users + [u], u.username) == Some(u)
  {
    if users != [] {
      assert (users + [u])[1..] == users[1..] + [u];
      FindNewUser(users[1..], u);
    }
  }

  // ---------------------------------------------------------------------
  // upload_file
  // ---------------------------------------------------------------------

  /** The checks of controllers.py:83-97, in their order; each failure is a 400. */
  function CheckUpload(parts: map<string, Upload>): (r: Result<Upload, Reply>)
    ensures r.Ok? <==> "file" in parts && parts["file"].filename != "" && EndsWith(parts["file"].filename, ".csv")
    ensures r.Ok? ==> r.value == parts["file"]
    ensures r.Err? ==> r.error.status == 400
    ensures "file" !in parts ==> r == Err(Reply(Message("No file provided"), 400))
    ensures "file" in parts && parts["file"].filename == "" ==> r == Err(Reply(Message("Empty filename"), 400))
    ensures "file" in parts && parts["file"].filename != "" && !EndsWith(parts["file"].filename, ".csv") ==>
      r == Err(Reply(Message("Invalid file format. Only CSV files are allowed."), 400))
  {
    if "file" !in parts then Err(Reply(Message("No file provided"), 400))
    else
      var file := parts["file"];
      if file.filename == "" then Err(Reply(Message("Empty filename"), 400))
      else if !EndsWith(file.filename, ".csv") then
        Err(Reply(Message("Invalid file format. Only CSV files are allowed."), 400))
      else Ok(file)
  }

  /** `os.path.join(directory, name)` for two components. */
  function JoinPath(directory: string, name: string): (p: string)
    ensures |name| > 0 && name[0] == '/' ==> p == name
    ensures (name == [] || name[0] != '/') ==>
      && |directory| <= |p| <= |directory| + 1 + |name|
      && p[..|directory|] == directory
      && (p == directory + name || p == directory + "/" + name)
      && (p == directory + "/" + name <==> directory != [] && directory[|directory| - 1] != '/')
  {
    if |name| > 0 && name[0] == '/' then name
    else if directory == [] || directory[|directory| - 1] == '/' then directory + name
    else directory + "/" + name
  }

  /** The joined path always ends with the name, as `os.path.join`'s last component. */
  lemma JoinPathEndsWithName(directory: string, name: string)
    ensures EndsWith(JoinPath(directory, name), name)
  {
    var p := JoinPath(directory, name);
    assert p[|p| - |name|..] == name;
  }

  /** Where an upload is stored: `uploads/<user id>/<sanitised name>` (controllers.py:102-105). */
  function StoragePath(userId: nat, filename: string): (p: string)
    ensures (filename == [] || filename[0] != '/') ==> p == "uploads/" + NatToString(userId) + "/" + filename
  {
    JoinPath("uploads/" + NatToString(userId), filename)
  }

  /**
   * Two users never share a storage path: the digits after "uploads/" up to
   * the next '/' are the user's id.
   */
  lemma UsersDoNotSharePaths(u1: nat, n1: string, u2: nat, n2: string)
    requires u1 != u2
    requires (n1 == [] || n1[0] != '/') && (n2 == [] || n2[0] != '/')
    ensures StoragePath(u1, n1) != StoragePath(u2, n2)
  {
    var d1, d2 := NatToString(u1), NatToString(u2);
    var p1, p2 := StoragePath(u1, n1), StoragePath(u2, n2);
    PrintingIsInjective(u1, u2);
    IdInPath(u1, n1);
    IdInPath(u2, n2);
    if |d1| < |d2| {
      assert p1[8 + |d1|] != p2[8 + |d1|] by { assert IsDigit(d2[|d1|]); }
    } else if |d2| < |d1| {
      assert p1[8 + |d2|] != p2[8 + |d2|] by { assert IsDigit(d1[|d2|]); }
    } else {
      assert p1[8..8 + |d1|] != p2[8..8 + |d2|];
    }
  }

  /** The id's digits sit right after "uploads/" and are followed by '/'. */
  lemma IdInPath(u: nat, n: string)
    requires n == [] || n[0] != '/'
    ensures var d, p := NatToString(u), StoragePath(u, n);
      && 8 + |d| < |p|
      && p[8..8 + |d|] == d
      && (forall k :: 0 <= k < |d| ==> p[8 + k] == d[k])
      && p[8 + |d|] == '/'
  {
    var d, p := NatToString(u), StoragePath(u, n);
    assert p == "uploads/" + d + "/" + n;
  }

  // ---------------------------------------------------------------------
  // get_user_files
  // ---------------------------------------------------------------------

  /** `current_user.files`: the user's file records, in table order. */
  function FilesOf(files: seq<FileRecord>, userId: nat): (r: seq<FileRecord>)
    ensures forall f :: f in r <==> f in files && f.userId == userId
    ensures IsSubsequence(r, files)
  {
    if files == [] then []
    else if files[0].userId == userId then
      var rest := FilesOf(files[1..], userId);
      assert ([files[0]] + rest)[1..] == rest;
      [files[0]] + rest
    else FilesOf(files[1..], userId)
  }

  /** get_file_columns (utils.py:19-26): a ParserError is re-raised with a prefix. */
  function GetFileColumns(readCsv: string -> CsvRead, path: string): (r: CsvRead)
    ensures r.Columns? <==> readCsv(path).Columns?
    ensures r.OtherError? <==> readCsv(path).OtherError?
    ensures !r.ParserError? ==> r == readCsv(path)
    ensures r.ParserError? ==>
      && |READ_ERROR_PREFIX| <= |r.message|
      && r.message[..|READ_ERROR_PREFIX|] == READ_ERROR_PREFIX
      && r.message[|READ_ERROR_PREFIX|..] == readCsv(path).message
  {
    match readCsv(path)
    case ParserError(message) => ParserError(READ_ERROR_PREFIX + message)
    case other => other
  }

  /** The error text of controllers.py:139-142; it names the file. */
  function ColumnsErrorText(filename: string, message: string): (r: string)
    ensures |COLUMNS_ERROR_PREFIX| + |filename| <= |r|
    ensures r[|COLUMNS_ERROR_PREFIX|..|COLUMNS_ERROR_PREFIX| + |filename|] == filename
  {
    COLUMNS_ERROR_PREFIX + filename + "': " + message
  }

  /** The entry the loop at controllers.py:127-149 makes for `f`, given its read. */
  predicate Describes(e: FileEntry, f: FileRecord, read: CsvRead)
    ensures Describes(e, f, read) ==> !read.OtherError? && (e.error.None? <==> read.Columns?)
  {
    && e.fileId == f.id
    && e.filename == f.filename
    && match read
       case Columns(names) => e.columns == names && e.error == None
       case ParserError(message) => e.columns == [] && e.error == Some(ColumnsErrorText(f.filename, message))
       case OtherError(_) => false
  }

  /**
   * The body of the `try` at controllers.py:128-149 for one file: its entry,
   * or the exception that escapes the `except ParserError`.
   */
  function Entry(f: FileRecord, read: CsvRead): (r: Result<FileEntry, string>)
    ensures r.Ok? <==> !read.OtherError?
    ensures r.Ok? ==> Describes(r.value, f, read)
  {
    match read
    case Columns(names) => Ok(FileEntry(f.id, f.filename, names, None))
    case ParserError(message) => Ok(FileEntry(f.id, f.filename, [], Some(ColumnsErrorText(f.filename, message))))
    case OtherError(message) => Err(message)
  }

  // ---------------------------------------------------------------------
  // The database and the upload directory
  // ---------------------------------------------------------------------

  class Store {
    var users: seq<User>
    var files: seq<FileRecord>
    /** The saved uploads, by path. */
    var disk: map<string, seq<bv8>>
    var nextUserId: nat
    var nextFileId: nat

    ghost predicate Valid()
      reads this
    {
      && UniqueUsernames(users)
      && UniqueUserIds(users)
      && (forall i :: 0 <= i < |users| ==> users[i].id < nextUserId)
      && UniqueFileIds(files)
      && (forall i :: 0 <= i < |files| ==> files[i].id < nextFileId)
      && (forall i :: 0 <= i < |files| ==> files[i].userId in UserIds(users))
    }

    /** An empty database; SQLite hands out ids from 1. */
    constructor ()
      ensures Valid()
      ensures users == [] && files == [] && disk == map[]
    {
      users := [];
      files := [];
      disk := map[];
      nextUserId := 1;
      nextFileId := 1;
    }

    /**
     * register_user (controllers.py:16-41): a taken username is a 409 and
     * changes nothing; otherwise one user is added, holding the hash of the
     * password, never the password itself.
     */
    method RegisterUser(username: string, password: string, salt: string, hashpw: (string, string) -> string)
      returns (reply: Reply)
      requires Valid()
      modifies this
      ensures Valid()
      ensures files == old(files) && disk == old(disk) && nextFileId == old(nextFileId)
      ensures FindUser(old(users), username).Some? ==>
        && reply == Reply(Message("User with that username already exists"), 409)
        && users == old(users) && nextUserId == old(nextUserId)
      ensures FindUser(old(users), username).None? ==>
        && reply == Reply(Message("User registered successfully"), 200)
        && users == old(users) + [User(old(nextUserId), username, hashpw(password, salt))]
        && nextUserId == old(nextUserId) + 1
    {
      if FindUser(users, username).Some? {
        return Reply(Message("User with that username already exists"), 409);
      }
      var user := User(nextUserId, username, hashpw(password, salt));
      users := users + [user];
      nextUserId := nextUserId + 1;
      assert UserIds(old(users)) <= UserIds(users);
      reply := Reply(Message("User registered successfully"), 200);
    }

    /**
     * upload_file (controllers.py:78-114). A failed check is a 400 and
     * writes nothing; a token whose user is gone fails at `current_user.id`
     * before anything is written; otherwise the bytes are saved under
     * `uploads/<id>/<name>`, replacing any file already there, and one
     * record is added.
     */
    method UploadFile(currentUserId: nat, parts: map<string, Upload>, secureFilename: string -> string)
      returns (r: Result<Reply, string>)
      requires Valid()
      modifies this
      ensures Valid()
      ensures users == old(users) && nextUserId == old(nextUserId)
      ensures CheckUpload(parts).Err? ==>
        r == Ok(CheckUpload(parts).error) && files == old(files) && disk == old(disk) && nextFileId == old(nextFileId)
      ensures CheckUpload(parts).Ok? && FindUserById(users, currentUserId).None? ==>
        r.Err? && files == old(files) && disk == old(disk) && nextFileId == old(nextFileId)
      ensures CheckUpload(parts).Ok? && FindUserById(users, currentUserId).Some? ==>
        var name := secureFilename(parts["file"].filename);
        var path := StoragePath(currentUserId, name);
        && r == Ok(Reply(Message("File uploaded successfully"), 200))
        && files == old(files) + [FileRecord(old(nextFileId), name, path, currentUserId)]
        && disk == old(disk)[path := parts["file"].content]
        && nextFileId == old(nextFileId) + 1
    {
      var currentUser := FindUserById(users, currentUserId);
      var checked := CheckUpload(parts);
      if checked.Err? {
        return Ok(checked.error);
      }
      var file := checked.value;
      if currentUser.None? {
        return Err("'NoneType' object has no attribute 'id'");
      }
      var filename := secureFilename(file.filename);
      var path := StoragePath(currentUser.value.id, filename);
      disk := disk[path := file.content];
      files := files + [FileRecord(nextFileId, filename, path, currentUser.value.id)];
      nextFileId := nextFileId + 1;
      assert currentUser.value.id in UserIds(users);
      r := Ok(Reply(Message("File uploaded successfully"), 200));
    }

    /**
     * get_user_files (controllers.py:117-152): one entry per file of the
     * user, in order; a ParserError becomes an entry with no columns and an
     * error naming the file, while any other exception ends the request.
     */
    method GetUserFiles(currentUserId: nat, readCsv: string -> CsvRead) returns (r: Result<Reply, string>)
      requires Valid()
      ensures FindUserById(users, currentUserId).None? ==> r.Err?
      ensures FindUserById(users, currentUserId).Some? ==>
        var owned := FilesOf(files, currentUserId);
        && (r.Err? <==> exists i :: 0 <= i < |owned| && GetFileColumns(readCsv, owned[i].path).OtherError?)
        && (r.Ok? ==>
              && r.value.status == 200
              && r.value.body.FileList?
              && |r.value.body.files| == |owned|
              && forall i :: 0 <= i < |owned| ==>
                   Describes(r.value.body.files[i], owned[i], GetFileColumns(readCsv, owned[i].path)))
    {
      var currentUser := FindUserById(users, currentUserId);
      if currentUser.None? {
        return Err("'NoneType' object has no attribute 'files'");
      }
      var owned := FilesOf(files, currentUserId);
      var listed := ListFiles(owned, readCsv);
      if listed.Err? {
        ghost var i :| 0 <= i < |owned| && GetFileColumns(readCsv, owned[i].path).OtherError?;
        assert GetFileColumns(readCsv, FilesOf(files, currentUserId)[i].path).OtherError?;
        return Err(listed.error);
      }
      r := Ok(Reply(FileList(listed.value), 200));
    }
  }

  /** The loop at controllers.py:126-149 over the user's files. */
  method ListFiles(owned: seq<FileRecord>, readCsv: string -> CsvRead) returns (r: Result<seq<FileEntry>, string>)
    ensures r.Err? <==> exists i :: 0 <= i < |owned| && GetFileColumns(readCsv, owned[i].path).OtherError?
    ensures r.Ok? ==>
      && |r.value| == |owned|
      && forall i :: 0 <= i < |owned| ==> Describes(r.value[i], owned[i], GetFileColumns(readCsv, owned[i].path))
  {
    var fileList: seq<FileEntry> := [];
    var i := 0;
    while i < |owned|
      invariant 0 <= i <= |owned|
      invariant |fileList| == i
      invariant forall k :: 0 <= k < i ==> Describes(fileList[k], owned[k], GetFileColumns(readCsv, owned[k].path))
    {
      var entry := Entry(owned[i], GetFileColumns(readCsv, owned[i].path));
      if entry.Err? {
        assert GetFileColumns(readCsv, owned[i].path).OtherError?;
        return Err(entry.error);
      }
      fileList := fileList + [entry.value];
      i := i + 1;
    }
    r := Ok(fileList);
  }
}

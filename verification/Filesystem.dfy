/** src/common/vsftp_filesystem.c: path buffers and the two kinds of file system handles. */
module Filesystem {
  import opened Text
  import opened Paths
  import opened Translation
  import opened Machine
  import opened Operating

  method ConcatCwdAndPath(cwd: string, cwdLen: nat, path: string, pathLen: nat, concatPath: array<char>)
    returns (ok: bool, concatPathLen: nat)
    requires cwdLen == |cwd| && concatPath.Length == PATH_MAX && NulFree(cwd) && NulFree(path)
    modifies concatPath
    ensures ok == Concat(cwd, path, pathLen).Some?
    ensures ok ==>
              && CStr(concatPath[..]) == Concat(cwd, path, pathLen).value
              && concatPathLen == |Concat(cwd, path, pathLen).value|
  {
    ok, concatPathLen := false, 0;
    if cwdLen + pathLen < PATH_MAX {
      var text := cwd + "/" + path;
      ghost var before := concatPath[..];
      var written := Snprintf(concatPath, 0, PATH_MAX, text);
      if written < PATH_MAX {
        PrintedIsCStr(before, text);
        concatPathLen := written;
        ok := true;
      }
    }
  }

  /** The real path of `path`, taken relative to `cwd` unless it is absolute. */
  method GetRealPath(fs: Fs, cwd: string, cwdLen: nat, path: string, pathLen: nat, realPath: array<char>)
    returns (ok: bool, realPathLen: nat)
    requires cwdLen == |cwd| && realPath.Length == PATH_MAX && NulFree(cwd) && NulFree(path)
    modifies realPath
    ensures ok == RealPathText(fs, cwd, path, pathLen).Some?
    ensures ok ==>
              && CStr(realPath[..]) == RealPathText(fs, cwd, path, pathLen).value
              && realPathLen == |RealPathText(fs, cwd, path, pathLen).value|
  {
    ok, realPathLen := false, 0;
    if pathLen > 0 {
      var lpath := "";
      ok := IsAbsolute(path);
      if ok {
        lpath := path;
      } else if cwdLen > 0 {
        var absPath := new char[PATH_MAX];
        var absPathLen;
        ok, absPathLen := ConcatCwdAndPath(cwd, cwdLen, path, pathLen, absPath);
        if ok {
          lpath := CStr(absPath[..]);
        }
      }
      if ok {
        ok := false;
        var p := RealPath(fs, lpath);
        if p.Some? {
          var text := Render(p.value);
          var pLen := if |text| < PATH_MAX then |text| else PATH_MAX;
          if realPath.Length > pLen {
            SlashedNulFree(p.value);
            CStrUnique(text, text);
            Strncpy(realPath, 0, text, realPath.Length);
            PaddedIsCStr(text, realPath.Length, []);
            assert realPath[..] == Padded(text, PATH_MAX) + [];
            realPathLen := pLen;
            ok := true;
          }
        }
      }
    }
  }

  /** stat() and the file type test; `junk` is what uninitialised memory says when stat() fails. */
  method IsDir(fs: Fs, dir: string, dirLen: nat, junk: bool) returns (ok: bool)
    ensures ok <==> dirLen > 0 && if RealPath(fs, dir).Some? then IsDirText(fs, dir) else junk
  {
    ok := dirLen > 0;
    if ok {
      var p := RealPath(fs, dir);
      if p.Some? {
        ok := fs.nodes[p.value].Dir?;
      } else {
        ok := junk;
      }
    }
  }

  method IsFile(fs: Fs, file: string, fileLen: nat, junk: bool) returns (ok: bool)
    ensures ok <==> fileLen > 0 && if RealPath(fs, file).Some? then IsFileText(fs, file) else junk
  {
    ok := fileLen > 0;
    if ok {
      var p := RealPath(fs, file);
      if p.Some? {
        ok := fs.nodes[p.value].File?;
      } else {
        ok := junk;
      }
    }
  }

  /** Opening a file: the handle is handed back even when fstat() fails after open(). */
  method OpenFile(os: Os, absPath: string, absPathLen: nat, o: Oracle) returns (ok: bool, fd: int, size: nat)
    modifies os
    ensures absPathLen > 0 && o.fileAccess && old(os.State()).Fresh(o.file) ==>
              os.State() == old(os.State()).Opened(o.file).Logged(Fetches(absPath)) && fd == o.file
              && ok == o.fileStat && (ok ==> size == o.size)
    ensures !(absPathLen > 0 && o.fileAccess && old(os.State()).Fresh(o.file)) ==>
              os.State() == old(os.State()) && fd == -1 && !ok
    ensures !ok ==> size == 0
  {
    fd, size := -1, 0;
    ok := absPathLen > 0;
    if ok {
      ok := o.fileAccess;
    }
    if ok {
      fd := os.OpenFile(absPath, o.file);
      if fd == -1 {
        ok := false;
      } else {
        ok := o.fileStat;
      }
    }
    if ok {
      size := o.size;
    }
  }

  /** A position in an open directory stream; None is the NULL cookie. */
  datatype DirStream = DirStream(fd: int, pos: nat)

  /**
   * One call of the cookie-driven listing. The handle is closed on the call that meets the end of the
   * stream, which leaves buf alone, and on the call whose line does not fit.
   */
  method ListDirPerLine(os: Os, path: string, pathLen: nat, buf: array<char>, bufLen: nat, prependDir: bool,
                        cookie: Option<DirStream>, o: Oracle)
    returns (ok: bool, newLen: nat, next: Option<DirStream>)
    requires pathLen == |path| && NulFree(path) && buf.Length == PATH_MAX
    requires cookie.Some? ==> cookie.value.fd == o.dir && cookie.value.pos <= |o.entries|
    requires cookie.Some? ==> o.dir in os.open
    modifies os, buf
    ensures (pathLen == 0 || (cookie.None? && !old(os.State()).Fresh(o.dir))) ==>
              !ok && os.State() == old(os.State())
    ensures pathLen > 0 && (cookie.Some? || old(os.State()).Fresh(o.dir)) ==>
              var k := if cookie.None? then old(os.State()).Opened(o.dir).Logged(Opens(path)) else old(os.State());
              var pos := if cookie.None? then 0 else cookie.value.pos;
              if pos == |o.entries| then
                && ok && next == None && newLen == bufLen && buf[..] == old(buf[..])
                && os.State() == k.Closed(o.dir)
              else
                var line := Line(path, prependDir, o.entries[pos]);
                if |line| >= PATH_MAX then !ok && os.State() == k.Closed(o.dir)
                else
                  && ok && next == Some(DirStream(o.dir, pos + 1)) && newLen == |line|
                  && CStr(buf[..]) == line && os.State() == k
  {
    ok, newLen, next := pathLen > 0, bufLen, cookie;
    var d: Option<DirStream> := None;
    if ok {
      if cookie.None? {
        var fd := os.OpenDir(path, o.dir);
        if fd == -1 {
          ok := false;
        } else {
          d := Some(DirStream(fd, 0));
        }
      } else {
        d := cookie;
      }
    }
    if ok {
      var pos := d.value.pos;
      if pos < |o.entries| {
        var line := if prependDir then path + "/" + o.entries[pos] else o.entries[pos];
        ghost var before := buf[..];
        var written := Snprintf(buf, 0, PATH_MAX, line);
        d := Some(DirStream(d.value.fd, pos + 1));
        if written < PATH_MAX {
          PrintedIsCStr(before, line);
          newLen := written;
        } else {
          ok := false;
        }
      } else {
        os.Close(d.value.fd);
        d := None;
      }
    }
    if !ok && d.Some? {
      os.Close(d.value.fd);
      d := None;
    }
    if ok {
      next := d;
    }
  }
}

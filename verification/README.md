# A verified model of the vs-ftp session engine

vs-ftp is a read-only FTP server for one anonymous client at a time. One global record holds its
sockets, its root and current directory (fixed 256-byte buffers) and the transfer mode; `main` calls
`VSFTPServerHandler` in a loop, and each call starts the server, accepts a client, or handles one read
from the client. This project models that engine and proves what every run of it keeps.

## How the model is built

* **The program itself** is imperative, file by file: `Filesystem.dfy` (vsftp_filesystem.c), `Daemon.dfy`
  (the `Server` class with the C record's fields and its character buffers as arrays), `Handlers.dfy`
  (vsftp_commands.c), `Program.dfy` (the handler and main.c), `Decimal.dfy` (the port argument). A `const char *`
  is a sequence of characters read up to its first NUL; an out-buffer is an `array<char>` that the method modifies.
* **System calls** act on `Operating.Os`: the set of open descriptors, the numbers `close` was called on in vain, and
  a trace of what the client can observe (sessions, request lines, passive sockets, data connections, directories
  opened for a listing, files opened for sending, replies and data, each with its socket). Their results come from an
  `Oracle` parameter, one per handler step, about which nothing is assumed: any descriptor number may be offered (only
  fresh ones above 2 are handed out), any call may fail, reads and writes may be short.
* **The specification** is a world value (`Machine.World`) and pure functions on it (`Machine.dfy`, `Protocol.dfy`). Every method of
  the program is proved to turn the world it starts in into exactly the world its specification function gives.
* **The theorems** are lemmas about these functions, for all worlds, oracles and schedules: transfers (`Transfers.dfy`), the
  invariant (`Sessions.dfy`, `Steps.dfy`, `Runs.dfy`), the reply discipline of RFC 959 on the trace (`Discipline.dfy`) and on
  the bytes the client reads (`Wire.dfy`), which directories and files are opened (`Disclosure.dfy`), when the root bounds
  the directory and the files (`Containment.dfy`, `Escapes.dfy`, `Fetching.dfy`), the refinement of a small abstract machine
  (`Refinement.dfy`), what commands achieve (`Outcomes.dfy`), what each request line
  is answered and does (`Answers.dfy`), and the statements about whole runs (`Guarantees.dfy`).

Where C leaves the outcome undefined the oracle decides it, so that no command needs a precondition: the current
directory is used as a format string (vsftp_server.c:816), so with a `%` in it the text produced is arbitrary; a root and
an absolute argument of 256 characters or more together leave an unterminated buffer (vsftp_server.c:717-719), so the path
read from it continues with arbitrary memory; a listing line of 255 characters makes `write` read one byte past the
buffer (vsftp_server.c:904-911), and that byte is arbitrary.

Explicit assumptions: `read` on the control socket returns fewer than 288 bytes (vsftp_server.c:195 writes a NUL behind
them); `shutdown` fails on a number that is not a live socket, 0 included, which is what `transferClientSock` holds
before the first transfer; the directory tree does not change and has no symbolic links; a directory stream has at
least one entry; `stat` succeeds on a path `realpath` returned; file sizes are below 2^63.

## Results that differ from the documentation

* The root check compares bytes (vsftp_server.c:321 and 674-699), so it also admits siblings such as `/rx` for the root `/r`.
  Every run stays inside the root if and only if no directory beside the root has a name that properly extends the root's
  last name: `AdmittedAreInside`, `StaysInsideIff`. `TwinEntered` is a run that leaves `/r` for `/rx`.
* The root is documented to bound every access (vsftp_server.c:321), but RETR and SIZE do not call the check. They find
  only files inside the root if and only if every regular file of the machine with a path below 256 characters is there:
  `TargetsInsideIff`, and for whole runs `FetchesInsideIff`. Otherwise `/..` repeated and then the file's path leads to
  it from every directory (`DetourFinds`); in `OutskirtsSent` a server for `/r` sends `/e/f`.
* RETR repeats its argument and PWD shows the directory unescaped. A CRLF in them makes the client read one reply as
  two: `AnnouncementIsWhole` and `PathReplyIsWhole` say exactly when, `EchoedName` gives a file for which the client reads a
  226 no transfer has earned, and `RunReadsAnswers` says what every other client reads.
* PWD followed by CWD with the reported path is the identity exactly under `PwdReturns`: always inside a root
  other than `/`, but with the root `/` only in `/` itself, because the leading slash is cut off with the root.
* `DecimalStringValueMax` is `65365`, not 65535, the empty string is accepted, and a port with leading zeros that make it
  longer than five digits is rejected (main.c:31, 120-137): `NotUint16Max` and, for 65366 and 000080, `RejectedPorts`.
* The listing sends its last entry twice, and a failed send before the end leaves the directory handle open (vsftp_commands.c:206-226):
  `ListsEveryEntry`, `ListHandle`, and for a session `ListingLeaksHandle`.
* A short write on the data connection loses bytes while the transfer is still reported complete: `SentWholeIff`
  says exactly when, `ShortWriteLosesBytes` gives an instance.
* The transfer mode outlives a session; only a start resets it (`Refinement.Next`).
* After a server socket that failed behind `socket()`, stopping closes a dead number; no other run ever does
  (`RunThenStop`, `DeadNumberClosedAgain`).

## Model

| member | source | states |
|---|---|---|
| Guarantees.RunContained | src/common/vsftp_server.c:762-802 | in every run, from the first step on, the directory is a canonical one below 256 characters with the root as a byte prefix, and inside the root if the root stands alone |
| Escapes.StaysInsideIff | src/common/vsftp_server.c:690-695 | all runs stay inside the root if and only if no directory beside it, on a path that fits the buffers, has a name that extends its own |
| Escapes.SessionEscapes | src/common/vsftp_commands.c:269-292 | from the root, CWD ../n moves a session into any such directory n |
| Escapes.TwinEntered | src/common/vsftp_server.c:762-802 | with /r and /rx in the tree, three steps take a server for /r to /rx |
| Containment.AdmittedAreInside | src/common/vsftp_server.c:315-322 | every directory the byte test accepts is inside the root if and only if the root stands alone |
| Guarantees.RunLists | src/common/vsftp_commands.c:169-194 | in every run, unless directories have a `%` in their path, each one opened for a listing passes the root check, and is inside the root if the root stands alone |
| Guarantees.StepLists | src/common/vsftp_commands.c:152-227 | in any tree a directory is only opened to answer NLST: the one CWD would enter with its argument, an admitted one in any case, and the current one (if that has no `%`) without |
| Guarantees.RunOwns | src/common/vsftp_server.c:365-582 | in every run the open descriptors are exactly those the four socket fields name, pairwise different, plus the lost ones; none is lost when every shutdown and listing send is accepted, and close never met a dead number |
| Guarantees.RunAnswers | src/common/vsftp_commands.c:79-490 | in every run one final reply is handed to write for each request or greeting before the next one; what write took is that reply, alone or behind one preliminary reply, 226 only behind one, or less if it was refused; where no echo holds a CRLF the client reads exactly these replies |
| Guarantees.RunReadsAnswers | src/common/vsftp_server.c:827-889 | if no directory holds a `%` or shows a CRLF and no RETR argument holds a CRLF, the bytes written behind each request, parsed as section 4.2 of RFC 959 has it, are one final reply or a preliminary and a final one; without the final reply, nothing or a preliminary one |
| Guarantees.RunTransfers | src/common/vsftp_server.c:584-625 | in every run data flows only between a 150 that was written and the final reply behind it, on the data connection accepted for the same request |
| Guarantees.RunPrepares | src/common/vsftp_commands.c:106-230 | in every run each 150 comes after the start of its session and, in it, after the creation of a passive data socket with no other 150 in between; 150s never outnumber creations |
| Guarantees.ListenerIsSpare | src/common/vsftp_commands.c:106-150 | between steps, 150s sent plus one if a listener is open are at most the creations of the session |
| Guarantees.NoListenerSurvives | src/common/vsftp_server.c:203-220 | after NLST, RETR, an unknown or failed command, or the end of the session the data listener is closed, or lost if its shutdown was refused |
| Answers.CwdAnswered | src/common/vsftp_commands.c:269-292 | a line with CWD in front is answered 250 and moves exactly when its argument, cut at a NUL, passes the length checks and walks to a directory the root admits, else 550 and the session stays |
| Answers.NlstAnswered | src/common/vsftp_commands.c:152-239 | NLST opens the directory CWD would enter with its argument, or the current one without, and no other; 226 only behind its opening; without such a directory 550, nothing opened and nothing sent |
| Answers.RetrAnswered | src/common/vsftp_commands.c:294-350 | RETR opens the regular file its path leads to and no other; 226 only behind its opening with access, open and fstat, else 451; 551 for any other path and 451 without one, nothing opened and nothing sent |
| Answers.RetrAnnounces | src/common/vsftp_commands.c:326-334 | behind the accept RETR writes the 150 with the mode and its argument |
| Answers.NlstAnnounces | src/common/vsftp_commands.c:196-202 | behind the accept NLST writes its 150 |
| Answers.SizeAnswered | src/common/vsftp_commands.c:352-393 | SIZE is answered 213 with the decimal size of the file its path leads to, 550 for any other path, 451 without one, and changes nothing |
| Answers.TypeAnswered | src/common/vsftp_commands.c:395-415 | I and i set binary and A and a ASCII, if the 200 is written; any other argument gets 504 and keeps the mode |
| Answers.UserAnswered | src/common/vsftp_commands.c:79-95 | anonymous is answered 230 and stays, any other user 530 and is disconnected |
| Answers.PasvAnswered | src/common/vsftp_commands.c:106-150 | with a socket the server listens for data on port 40000 and answers 227 with its address and that port; without one 425 |
| Answers.PwdAnswered | src/common/vsftp_commands.c:241-267 | PWD is answered 257 with the server path and changes nothing |
| Answers.HelpAnswered | src/common/vsftp_commands.c:417-454 | HELP is answered with the names of all eleven commands in three lines |
| Answers.SystAnswered | src/common/vsftp_commands.c:97-104 | SYST is answered 215 and changes nothing |
| Answers.QuitAnswered | src/common/vsftp_commands.c:456-463 | QUIT is answered 221 and the session goes on |
| Answers.UnknownAnswered | src/common/vsftp_commands.c:484-488 | a line that starts with none of the eleven words is answered 502 and changes nothing a client sees |
| Answers.Greeted | src/common/vsftp_server.c:149-165 | an accepted client is answered 220, in the root, and connected if that was written |
| Answers.OtherReads | src/common/vsftp_server.c:216-231 | the end of the connection ends the session and keeps the server; other reads are passed over on try again and stop the server otherwise |
| Answers.NobodyConnects | src/common/vsftp_server.c:166-175 | without a client the server listens on or, on any other error, stops |
| Answers.RequestsAreLines | src/common/vsftp_server.c:196 | a read is a request exactly if it is a non-empty line with CRLF behind it |
| Guarantees.RunListens | src/common/vsftp_server.c:383-388 | in every run the server listens for control connections on the configured port and for data on port 40000 |
| Runs.StartListens | src/common/vsftp_server.c:380-393 | a start that succeeds adds listening on the configured port to the trace, one that fails nothing |
| Refinement.StepRefines | src/common/vsftp_server.c:443-461 | every handler step, failing or not, is a step or stutter of the abstract machine: only CWD moves, only TYPE switches, only PASV arms, a session begins at the root and in the mode of the last one |
| Refinement.RequestRefines | src/common/vsftp_server.c:196-215 | for every request whose outcome C defines, the abstract state afterwards is the one the abstract machine computes without buffers or sockets |
| Refinement.SessionIsFold | src/common/vsftp_server.c:142-231 | from the accept on, the directory of a session is the fold of its CWD requests over the tree, from the root, whatever else is read |
| Refinement.StaysConnected | src/common/vsftp_server.c:183-231 | which reads leave the client connected: requests but a rejected USER, and unfinished ones while errno says try again |
| Runs.RunThenStop | src/linux/main.c:219-236 | after a run and the final stop only lost descriptors are open; close meets a dead number exactly when the run ended in a start that failed behind socket() |
| Guarantees.SessionBegins | src/common/vsftp_server.c:443-461 | a start and an accept in which nothing is refused open a session in the root, so the invariant is met by real runs |
| Runs.DeadNumberClosedAgain | src/common/vsftp_server.c:124-131 | the run whose bind fails: the closed number 3 is closed again by the stop |
| Runs.StepKeeps | src/common/vsftp_server.c:443-461 | every handler step keeps the session invariant, and a failing one leaves owned descriptors and no reply owed |
| Runs.StartKeeps | src/common/vsftp_server.c:365-396 | starting succeeds exactly when a socket is obtained and set up; the directory becomes the root, the mode binary, and no live descriptor is overwritten |
| Runs.WaitKeeps | src/common/vsftp_server.c:142-175 | an accepted session begins in the root with the mode unchanged and no data listener; no live client socket is overwritten |
| Runs.RootCwd | src/common/vsftp_server.c:158 | setting the directory to the configured root always succeeds |
| Sessions.StopKeeps | src/common/vsftp_server.c:404-424 | stopping clears all four fields and leaves exactly the lost descriptors open |
| Sessions.DisconnectKeeps | src/common/vsftp_server.c:467-479 | disconnecting releases the data and client sockets and keeps the server socket |
| Sessions.CloseDataKeeps | src/common/vsftp_server.c:511-582 | closing the data sockets keeps ownership of all others |
| Steps.PerformKeeps | src/common/vsftp_commands.c:465-490 | every request line, known or not, keeps the invariant and owes no reply afterwards; it succeeds exactly when the command is known and its final reply is written |
| Steps.RequestKeeps | src/common/vsftp_server.c:196-215 | a whole request with its clean-up keeps the session invariant |
| Steps.RetrKeeps | src/common/vsftp_commands.c:294-350 | RETR keeps the invariant on all of its exits |
| Steps.NlstKeeps | src/common/vsftp_commands.c:152-239 | NLST keeps the invariant on all of its exits |
| Steps.PasvKeeps | src/common/vsftp_commands.c:106-150 | PASV keeps the invariant, also when the new socket fails during set-up |
| Frames.ExecuteSteady | src/common/vsftp_commands.c:79-463 | a command changes the directory only by CWD, the mode only by an answered TYPE, the session only by a rejected USER |
| Discipline.EveryCommandAnswered | src/common/vsftp_server.c:827-889 | on any trace without protocol breach the replies written between two boundaries have the shape of section 5.4 of RFC 959, as far as the final one was written |
| Discipline.EveryMarkPrepared | src/common/vsftp_commands.c:120-124 | on a matched trace each 150 has a session before it and, in between, a passive data socket of its own |
| Discipline.EveryDataAnnounced | src/common/vsftp_commands.c:196-230 | on an unbroken trace data comes behind a written 150 and the accept of its connection, within one request |
| Wire.WholeTextsRead | src/common/vsftp_server.c:827-889 | replies that read as one are read back from the concatenated bytes one by one |
| Wire.AnnouncementIsWhole | src/common/vsftp_commands.c:328-334 | the 150 of RETR reads as one reply exactly if its argument holds no CRLF |
| Wire.PathReplyIsWhole | src/common/vsftp_commands.c:261 | the 257 reads as one reply exactly if the path holds no CRLF |
| Wire.HelpIsWhole | src/common/vsftp_commands.c:427-451 | the three lines of HELP read as one multi-line reply |
| Outcomes.EchoSplits | src/common/vsftp_commands.c:328-346 | asked for a path with a CRLF in it, RETR writes two replies and the client reads three |
| Outcomes.EchoedName | src/common/vsftp_commands.c:328-346 | a file name that makes the client read a 226 no transfer has earned |
| Discipline.PreparationsDistinct | src/common/vsftp_commands.c:120-124 | two 150s never rely on the same creation |
| Discipline.MarksWithinListens | src/common/vsftp_commands.c:120-124 | counted per session, 150s plus a spare listener are at most the creations |
| Outcomes.PwdThenCwdCommand | src/common/vsftp_commands.c:241-292 | CWD with the path PWD reported succeeds and stays exactly when PwdReturns, through both real-path resolutions |
| Outcomes.PwdReports | src/common/vsftp_commands.c:241-267 | PWD writes 257 with the components of the directory behind the root's, "/" in the root itself, and without the leading slash when the root is "/" |
| Outcomes.PasvAnnounces | src/common/vsftp_commands.c:106-150 | the 227 text decodes to the server's address and the port the passive socket was bound to, and 425 is sent exactly without a socket |
| Disclosure.StepOpens | src/common/vsftp_commands.c:152-350 | a step opens no directory but the one its NLST request names and no file but the one its RETR request names |
| Outcomes.ListMeaning | src/common/vsftp_commands.c:169-194 | the directory NLST chooses is the one CWD would enter with the same argument, and the current one without |
| Outcomes.FileMeaning | src/common/vsftp_commands.c:294-393 | RETR and SIZE find the regular file the path's walk leads to, if the length checks pass, and no other |
| Fetching.TargetsInsideIff | src/common/vsftp_commands.c:294-393 | the files RETR and SIZE find are all inside the root if and only if every regular file with a path that fits is; when all detours fit, that needs no unterminated path |
| Fetching.FetchesInsideIff | src/common/vsftp_commands.c:294-350 | every run sends files from inside the root only, if every regular file is inside; and only then, for roots of eight characters or more and wherever the detours can be sent |
| Fetching.OutskirtsSent | src/common/vsftp_commands.c:294-350 | a four-step run in which a server for /r answers RETR /../e/f with the content of /e/f |
| Fetching.RequestServes | src/common/vsftp_server.c:584-625 | a RETR request opens the file it finds and delivers it whole, if nothing it needs is refused or short |
| Guarantees.RunFetches | src/common/vsftp_commands.c:306-339 | in every run each file opened for sending is inside the root if every regular file with a path that fits is |
| Containment.DetourFinds | src/common/vsftp_server.c:715-720 | from every directory, /.. repeated once per root component and then the path of any regular file finds that file, when it fits |
| Outcomes.RetrSpeaks | src/common/vsftp_commands.c:318-347 | once its data connection is accepted RETR writes its announcement and one final reply, each if write takes it, and nothing else |
| Outcomes.RetrWithin | src/common/vsftp_server.c:584-625 | RETR never sends more than the size the file had when opened, and nothing of a file that may not be read |
| Outcomes.RetrPrefix | src/common/vsftp_commands.c:294-350 | on every exit RETR has delivered a prefix of the file, unless a write was short, and nothing if it found none |
| Outcomes.RetrDelivers | src/common/vsftp_commands.c:294-350 | RETR of a regular file ends in 226 or 451, and with 226 and an unchanged size the data connection carried the whole file exactly when no write was short |
| Outcomes.NlstSends | src/common/vsftp_commands.c:204-227 | NLST sends one line for each entry in order, its bare name or with an argument its server path, and the last one again |
| Outcomes.NlstDelivers | src/common/vsftp_commands.c:196-238 | a listing whose lines fit and whose sends succeed delivers every entry in order and the last one again, and is reported 226 |
| Transfers.SendAccounts | src/common/vsftp_server.c:584-625 | for every schedule bytes sent plus bytes left is the opened size, and never more is sent than the file holds |
| Transfers.SendsPrefix | src/common/vsftp_server.c:598-619 | without short writes the bytes delivered are at every exit the next bytes of the file |
| Transfers.SentWholeIff | src/common/vsftp_server.c:584-625 | success on an unchanging file means the whole file arrived, if and only if no write was short |
| Transfers.ShortWriteLosesBytes | src/common/vsftp_server.c:609-618 | a schedule on which success is reported and a byte is missing |
| Transfers.SendFileFrame | src/common/vsftp_filesystem.c:313-353 | the file handle is closed exactly once on every path, and only the trace is left changed |
| Transfers.SendFileExact | src/common/vsftp_server.c:584-625 | a file of unchanged size reported sent was delivered byte for byte exactly when no write was short |
| Transfers.SendFilePrefix | src/common/vsftp_server.c:584-625 | an unfinished transfer without short writes has delivered a prefix |
| Transfers.ListsEveryEntry | src/common/vsftp_commands.c:204-227 | n entries make n + 1 list calls and writes: each entry in order with CRLF, then the last one again |
| Transfers.ListHandle | src/common/vsftp_filesystem.c:109-166 | the directory handle stays open exactly when a send fails before the end of the stream |
| Guarantees.ListingLeaksHandle | src/common/vsftp_commands.c:204-227 | an NLST whose first line cannot be sent leaves the directory open for good |
| Transfers.ListDirFrame | src/common/vsftp_filesystem.c:134-163 | the directory handle is never closed twice, and a listing changes nothing but the trace and possibly one lost handle |
| Translation.RootCheckMeaning | src/common/vsftp_server.c:674-699 | on canonical paths the byte test accepts exactly when all root components but the last match and the last is a string prefix |
| Translation.AncestorsAndDescendants | src/common/vsftp_server.c:315-322 | every proper ancestor of the root is rejected and every descendant accepted |
| Translation.InsideIsDescendant | src/common/vsftp_server.c:315-322 | being inside the root is the byte test plus a separator behind it |
| Translation.ServerMeaning | src/common/vsftp_server.c:701-732 | through all buffers, and for every path and length C defines, a path of the client resolves to where its walk leads, if the length checks pass and the result fits |
| Translation.CwdMeaning | src/common/vsftp_server.c:701-802 | through all buffers, and for every path and length C defines, CWD goes where walking the path's pieces over the tree leads, if the length checks pass and that is an admitted directory that fits |
| Translation.SetCanonical | src/common/vsftp_server.c:772-799 | resolving an already resolved path again changes nothing |
| Translation.PathRoundTrip | src/common/vsftp_server.c:701-760 | real to server and back is the identity on every canonical path inside a root other than "/" |
| Translation.RootRoundTrip | src/common/vsftp_server.c:743-746 | the root is shown as "/" and "/" leads back to it |
| Translation.PwdThenCwd | src/common/vsftp_server.c:734-825 | PWD then CWD is the identity if and only if PwdReturns |
| Translation.ListedResolvesBack | src/common/vsftp_commands.c:207-217 | a listed line is an absolute server path exactly when the directory is the root or inside a root other than "/", and then leads to what the entry names |
| Outcomes.ListedLinesResolve | src/common/vsftp_commands.c:204-217 | each line NLST sends for an argument reads back, when absolute, as the entry it lists: an existing name as that node, "." as the directory, ".." as its parent |
| Paths.CanonicalResolves | src/common/vsftp_filesystem.c:276-293 | the canonical text of a node resolves to that node |
| Paths.RealPathIdempotent | src/common/vsftp_filesystem.c:276-293 | resolving a resolved path gives the same path |
| Paths.JoinResolves | src/common/vsftp_filesystem.c:50-67 | cwd, "/" and a path name what the path names seen from cwd |
| Dispatch.Words | src/common/vsftp_commands.c:31-77 | which of the eleven words at the front of a line runs which command, and none runs for any other line |
| Dispatch.AtMostOneName | src/common/vsftp_commands.c:65-77 | no request line starts with two command names |
| Dispatch.FindsTheName | src/common/vsftp_commands.c:470-482 | the search finds a command if and only if its name starts the line |
| Dispatch.TableOrderIrrelevant | src/common/vsftp_commands.c:465-490 | any table with the same commands finds the same one |
| Dispatch.Argument | src/common/vsftp_commands.c:472-477 | the argument is the exact suffix behind the name and one separator, empty if there is none |
| HostPort.HostPortDecodes | src/common/vsftp_commands.c:127-144 | six comma-separated numbers that decode to the address and port, for every address and 16-bit port |
| HostPort.HostPortUnique | src/common/vsftp_commands.c:127-144 | different addresses or ports give different texts |
| HostPort.IsQuadExact | src/common/vsftp_server.c:646-656 | the address test accepts exactly the dotted quads |
| Decimal.ParseDecimal | src/linux/main.c:61-75 | the value of the characters its 16-bit index reaches, modulo 2^16, for every length |
| Decimal.AcceptedParsesExactly | src/linux/main.c:61-75 | an accepted non-empty string is parsed to its exact value |
| Decimal.IsDecimal | src/linux/main.c:106-143 | accepts exactly the empty string and the digit strings of at most five digits and value at most 65365 |
| Decimal.FirstDifferenceDecides | src/linux/main.c:122-135 | comparing digit strings of equal length at the first difference compares their values |
| Decimal.NotUint16Max | src/linux/main.c:30-31 | for digit strings of every length, exactly when the check agrees with the documented bound |
| Decimal.RejectedPorts | src/linux/main.c:122-137 | 65366 and 000080 are rejected |
| Filesystem.ConcatCwdAndPath | src/common/vsftp_filesystem.c:50-67 | the joined text, or failure when it does not fit |
| Filesystem.GetRealPath | src/common/vsftp_filesystem.c:245-298 | the canonical text of the node, absolute or from cwd, or failure |
| Filesystem.IsDir | src/common/vsftp_filesystem.c:176-194 | whether an existing path is a directory |
| Filesystem.IsFile | src/common/vsftp_filesystem.c:204-222 | whether an existing path is a regular file |
| Filesystem.OpenFile | src/common/vsftp_filesystem.c:313-340 | an empty path or a failing access, open or fstat decides handle, size and success |
| Filesystem.ListDirPerLine | src/common/vsftp_filesystem.c:109-166 | one call of the cookie protocol: the next line, or the end or an unfit line with the handle closed |
| Daemon.Server.constructor | src/common/vsftp_server.c:57 | zero-initialised storage |
| Daemon.Server.Initialize | src/common/vsftp_server.c:332-359 | accepts exactly absolute paths of directories and stores the canonical root, the port and the address cut to its buffer |
| Daemon.Server.Start | src/common/vsftp_server.c:365-396 | the whole new state of a start, also when it fails half-way, on the configured port |
| Daemon.Server.StopServer | src/common/vsftp_server.c:404-424 | the whole new state of a stop |
| Daemon.Server.ClientDisconnect | src/common/vsftp_server.c:467-479 | the whole new state of a disconnect |
| Daemon.Server.CreatePassiveSocket | src/common/vsftp_server.c:78-134 | descriptor table, number left behind and success for every failing call |
| Daemon.Server.CreateTransferSocket | src/common/vsftp_server.c:487-505 | refuses while one is named, otherwise creates it on the given port |
| Daemon.Server.CloseTransferSocket | src/common/vsftp_server.c:511-531 | closed if shutdown succeeds, lost if it refuses a live socket, forgotten in any case |
| Daemon.Server.CloseTransferClientSocket | src/common/vsftp_server.c:562-582 | the same for the accepted data socket |
| Daemon.Server.CloseClientSocket | src/common/vsftp_server.c:293-313 | the same for the control socket |
| Daemon.Server.AcceptTransferClientConnection | src/common/vsftp_server.c:533-555 | a data connection exactly when a live listener yields one |
| Daemon.Server.SendfileTransfer | src/common/vsftp_server.c:584-625 | open, loop and close do what the send-loop function says, and the loop terminates on count |
| Daemon.Server.SetTransferMode | src/common/vsftp_server.c:627-632 | only the mode changes |
| Daemon.Server.GetServerIP4 | src/common/vsftp_server.c:658-672 | a copy of the configured address |
| Daemon.Server.AbsPathIsNotAboveRootPath | src/common/vsftp_server.c:674-699 | the loop is the byte-prefix test |
| Daemon.Server.ServerPathToRealPath | src/common/vsftp_server.c:701-732 | absolute arguments behind the root, relative ones behind cwd, resolved |
| Daemon.Server.RealPathToServerPath | src/common/vsftp_server.c:734-760 | for every memory and length, the text from the first byte that differs from the root's memory, or "/" |
| Daemon.DifferenceShown | src/common/vsftp_server.c:743-757 | on a terminated text that is no prefix of the root, or given with its own length, that text is the server path |
| Daemon.Server.SetCwd | src/common/vsftp_server.c:762-802 | the directory becomes the resolved path if it is an admitted directory, and stays otherwise |
| Daemon.Server.GetCwd | src/common/vsftp_server.c:804-825 | the current directory, unless it is unset, too long or spoilt as a format string |
| Daemon.Server.SendReply | src/common/vsftp_server.c:827-863 | one CRLF-terminated reply on the client socket, or none when it does not fit |
| Daemon.Server.SendReplyOwnBuf | src/common/vsftp_server.c:865-889 | the buffer and the line end it leaves room for on the client socket; nothing for an empty one |
| Daemon.Server.SendReplyOwnBufTransfer | src/common/vsftp_server.c:891-917 | one listing line on the data socket, with the line end the buffer leaves room for |
| Handlers.HandleUser | src/common/vsftp_commands.c:79-95 | exactly the transition UserAnswered is about, the disconnect of a rejected client included |
| Handlers.DotsToCommas | src/common/vsftp_commands.c:134-138 | the in-place loop turns exactly the dots into commas |
| Handlers.HandlePasv | src/common/vsftp_commands.c:106-150 | exactly the transition PasvAnnounces is about: old data sockets closed, one created, its outcome announced |
| Handlers.ChooseDirectory | src/common/vsftp_commands.c:169-194 | the directory ListMeaning is about, checked against the root if it was named |
| Handlers.ListAll | src/common/vsftp_commands.c:204-227 | the do-while loop is the listing function, handle and lost handle included |
| Handlers.HandleNlst | src/common/vsftp_commands.c:152-239 | exactly the transition NlstAnswered and NlstSends are about, on all exits |
| Handlers.HandlePwd | src/common/vsftp_commands.c:241-267 | exactly the transition PwdAnswered is about, through two buffers |
| Handlers.HandleCwd | src/common/vsftp_commands.c:269-292 | exactly the transition CwdAnswered is about, both resolutions included |
| Handlers.HandleRetr | src/common/vsftp_commands.c:294-350 | exactly the transition RetrAnswered and RetrDelivers are about, on all exits |
| Handlers.HandleSize | src/common/vsftp_commands.c:352-393 | exactly the transition SizeAnswered is about |
| Handlers.HandleType | src/common/vsftp_commands.c:395-415 | exactly the transition TypeAnswered is about |
| Handlers.HandleHelp | src/common/vsftp_commands.c:417-454 | the accumulated buffer is the whole multi-line reply |
| Handlers.Search | src/common/vsftp_commands.c:470-482 | the table loop calls the handler of the first command whose name starts the line, and none if there is none |
| Handlers.Parse | src/common/vsftp_commands.c:465-490 | the command Words and Argument are about is performed, and any other line gets the 502 reply and fails |
| Program.WaitForIncomingConnection | src/common/vsftp_server.c:142-175 | the whole new state of an accept, failed or not |
| Program.HandleClient | src/common/vsftp_server.c:183-231 | the whole new state of one read from the client |
| Program.Handler | src/common/vsftp_server.c:443-461 | one handler step |
| Program.Serve | src/linux/main.c:219-236 | the loop is the run function, and after it only lost descriptors are open |
| Program.Program | src/linux/main.c:169-239 | the program starts exactly when given a dotted quad, an accepted port and an absolute path of a directory that fits; then it is a run and a stop, listens on the port given, and leaves no descriptor open when no call refuses |

## Left out

- Decimal.ParseDecimal: requires digits, which `main` has checked by then.
- Short writes on the control socket: the code takes them for success, and the trace records the whole text as written.
- Refinement.SessionIsFold: a CWD from a directory with a `%` in its path, or with an absolute path that leaves its buffer unterminated, is excluded because C leaves its outcome open; `StepRefines` and `RunContained` cover it.
- Fetching.FetchesInsideIff: its only-if half leaves open roots of fewer than eight characters when the files outside all have paths of some 240 characters or more, because the 150 line must have room for the argument; `TargetsInsideIff` has no such gap.
- Filesystem.IsDir: what uninitialised memory says when `stat` fails is a parameter, `junk`; the commands only call it on resolved paths.
- Symbolic links, permissions on directories, changes of the tree during a run, and `realpath` limits other than existence.
- A failing `close`, and `close` on 0 to 2: the standard streams are not in the descriptor table.
- `printf` formats: replies are concatenations with a decimal printer.
- Logging, the version string, help output, argument printing and signal set-up; the quit flag is the end of the schedule.
- Return codes other than zero and non-zero, and the results of close functions, which every caller ignores.

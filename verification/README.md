# Verified model of four TCOS cores

TCOS runs thin clients. Four pieces of its C code do more than call other programs, and this
project models them in Dafny and proves what they keep, undo and promise.

- **The network controller** (`tnc/tcos-net-controller.c`) gives every user rules in one shared,
  first-match OUTPUT chain. Modules `Firewall` (the rules and what each command does),
  `FirewallControl` (the program, editing the chain in place), `FirewallFlush` (deleting by
  shifting rule numbers is filtering), `FirewallCut` (exactly when), `FirewallPorts` (which ports are
  blocked), `FirewallArgs` (argument vectors as one types them), `FirewallFrames` (what it
  does to the rules of others, exactly), `FirewallTheory` (idempotence, undoing, meaning for
  packets), `FirewallRuns` (many users, many commands) and `FirewallVerdicts` (what the rules of
  a user mean after any run).
- **The codec, the tokeniser and the address check** of the XML-RPC daemon
  (`xmlrpc/common.c`). Modules `Base64`, `Base64Theory`, `Base64Text`, `Tokens`, `DottedQuad`. The
  codec is the transfer encoding of section 6.8 of RFC 2045.
- **The mixer's command language** (`tmixer/tmixer-alsa.c`). Modules `LineLexer`,
  `LexerTheory` and `LexerForms` (the in-place line lexer and every way of writing for it),
  `ControlIds`, `ControlIdTheory` and `ControlIdForms` (two identifier parsers and their printers),
  `Percent` (levels and percentages), `MixerSet`, `MixerElement`,
  `MixerTheory`, `MixerSteps`, `MixerLists`, `MixerCapture`, `MixerWords` and `MixerCodes` (`sset`
  over up to 32 channels), `MixerLine` and
  `MixerLineTheory` (its arguments in the one buffer they share), `MixerEnum` (enumerated elements).
- **The mount listener** (`udev/mount_listener.c`). Modules `MountDiff` and `MountTheory`.

`CText` holds the parts of the C library's text handling all of them lean on, `Options` an
option type. Code that changes things step by step is a method on a class or an array, proved
equal to a function of what was there before; the theorems are lemmas about those functions. For
the controller `Perform` and `PerformAll` are what the program does, `Apply` and `Run` what its
commands are to do; `FirewallCut.PerformIffFits` and `FirewallCut.RunFits` say exactly when the
two are the same.
`dafny verify dfyconfig.toml` checks the project.

## What turned out false

Several things one would expect of the code fail. For each the project proves what the code does
instead, or when it does what one expects; "if and only if" marks the conditions that are exact.

- A flush deletes exactly the user's rules if and only if the listing fits the 1024-byte line
  and the 255 tokens (`FirewallCut.FlushIffFits`), which more than 255 rules never do
  (`FirewallCut.LongChainCut`). The rules of others stay if and only if the last number read is
  whole or names a rule of the user all the same (`FirewallFrames.FlushFrameIff`); on a chain of
  1204 rules a number is cut and another user's rule goes (`FirewallFrames.CutHitsOther`).
- Blocking ports only reaches the loopback if and only if the user is not confined already
  (`FirewallVerdicts.PortsOnLoopbackIff`), and an enable that covers tcp rules only answers
  "enabled" while status keeps saying "disabled" (`FirewallTheory.EnableReported`, exactly when).
- Of `--ports`, a range is checked by its first port: 80:9000 blocks both forbidden ports
  (`FirewallPorts.RangeSlips`). No run blocks a forbidden port if and only if no such range gets
  through (`FirewallPorts.RunPortsSafe`).
- The address check passes `999.-1.0.0` (`DottedQuad.OutOfRangePasses`); it recognises the
  prints of four machine integers, not of four octets (`DottedQuad.CheckIpAddress`).
- Re-applying a displayed percentage never lowers a level if and only if the range is below 200
  (`Percent.ReapplyIff`). The percentage shown is the one set if and only if ceil added less than
  half a percent, or half a percent to an even one (`Percent.SetThenShowIff`): always from 200 on
  (`Percent.SetThenShow`), not always below (`Percent.SetThenShowDrifts`).
- A bare number given to `sset` is a percentage on playback channels, but on capture channels
  only from the first playback channel on, since only playback appends the percent sign
  (`MixerTheory.SsetNumberCapture`); in a comma list only the last number can be one
  (`MixerLists.SsetListPlayback`).
- A step given in percent moves a level by that percentage of the width of the range if and only
  if the minimum is 0, the range is one level, or both ways lead to the same end of it
  (`MixerSteps.PercentStepIff`); otherwise the minimum has got in (`MixerSteps.PercentStepOff`).
  A step up and down leads back under the exact condition of `MixerSteps.StepUpDown`.
- `capture` selects the direction if and only if it is the whole text
  (`MixerCapture.CaptureSelectsIff`), unlike `playback`. `capture,50` turns a capture switch on and
  sets playback (`MixerCapture.CaptureFifty`; for every list: `MixerCapture.SsetCapList`).
- The signs appended to an argument are written over the next one: an argument one blank behind
  a number that is used on playback is lost (`MixerLineTheory.SecondLost`; what any later argument
  becomes: `MixerLineTheory.NextArgument`).
- A printed control identifier is read back if and only if its interface is not HWDEP, its name
  has no apostrophe and at most 64 characters, its numid is at least 1 and none of its numbers
  exceeds the range of `int` (`ControlIdTheory.RoundTripIff`).
- Replaying the mount events gives the table if and only if every change is monotone
  (`MountTheory.RunReplays`); an unmount and a mount between two looks go unseen, and the line that
  went can stay for good in what a reader of the events believes (`MountTheory.SwapLost`).

## Model

| member | source | states |
|---|---|---|
| FirewallControl.CheckPort | tnc/tcos-net-controller.c:122-153 | Answers 0 exactly for texts whose atoi value lies in 1..65535 and is neither 8998 nor 8999. |
| FirewallControl.OutputChain.StatusUser | tnc/tcos-net-controller.c:229-250 | 1 if and only if some rule of the chain is tagged and owned by the user, by number or by name. |
| FirewallControl.OutputChain.Delete | tnc/tcos-net-controller.c:290-297 | `-D OUTPUT n` takes out the n-th rule, closes the gap, and does nothing for a number the chain does not have. |
| FirewallControl.OutputChain.FlushUser | tnc/tcos-net-controller.c:254-305 | The whole new chain, also when the listing is cut: unchanged if the user has no rule, else the listed numbers deleted one at a time as split left them. |
| FirewallControl.OutputChain.AppendPort | tnc/tcos-net-controller.c:354-360 | Appends one tcp DROP for a port or a range of ports, unless iptables refuses owner or ports. |
| FirewallControl.OutputChain.AppendPorts | tnc/tcos-net-controller.c:350-361 | Appends one DROP per accepted port, in the order given, and nothing else. |
| FirewallControl.OutputChain.AppendNetwork | tnc/tcos-net-controller.c:376-402 | Appends ACCEPT for the loopback, then DROP outside the network, in that order. |
| FirewallControl.OutputChain.AddUser | tnc/tcos-net-controller.c:309-406 | The chain becomes what the flush left, then the port blocks, then the confinement; the result is 0 only when neither ports nor `no` were given. A route is needed only where its network is used. |
| FirewallControl.OutputChain.Execute | tnc/tcos-net-controller.c:485-563 | Exit code, printed answer and new chain for every argument vector, by the function Effect that the rows of FirewallArgs spell out; a caller without permission changes nothing and reads "denied". |
| FirewallArgs.EnableAll | tnc/tcos-net-controller.c:509-517 | enable-internet --only-ports=no u, with a listing that fits: exactly the tagged rules with the number of u are gone, the answer is "enabled". |
| FirewallArgs.EnableTcp | tnc/tcos-net-controller.c:509-517 | With any other option text: exactly the tcp ones among them are gone. |
| FirewallArgs.DisableAll | tnc/tcos-net-controller.c:499-508 | disable-internet --only-ports=no --ports=a,b,.. iface u for numerals of allowed ports: the rules of others, one tcp DROP per port in order, ACCEPT to 127.0.0.0/8, DROP outside the network of iface; the answer is "disabled". |
| FirewallArgs.DisablePorts | tnc/tcos-net-controller.c:499-508 | With another option text: the tcp rules of u are replaced by the DROPs, the rest stays. |
| FirewallArgs.DisableNothing | tnc/tcos-net-controller.c:499-508 | Neither ports nor no: the answer is "disable-error" and the tcp rules of u are gone all the same. |
| FirewallArgs.StatusOf | tnc/tcos-net-controller.c:519-527 | status u answers "disabled" if and only if a tagged rule with the number of u is in the chain, and changes nothing. |
| FirewallArgs.WrongCall | tnc/tcos-net-controller.c:550-560 | Another word, or a wrong number of arguments: code 1, no answer, the same chain. |
| FirewallArgs.RouteCall | tnc/tcos-net-controller.c:528-549 | The commands for routes and addresses leave the chain alone. |
| FirewallArgs.SelectedIsOwned | tnc/tcos-net-controller.c:229-250 | The rules the program takes for those of a name are the tagged ones with the number of the name, with number 0 for a name the system does not know. |
| FirewallControl.RunAll | tnc/tcos-net-controller.c:485-563 | A sequence of program calls takes the chain where the fold of the commands takes it, whatever the listings, and every call prints and returns what its command does in the state it meets. |
| FirewallFlush.DeleteDescending | tnc/tcos-net-controller.c:267-302 | Deleting the numbers of the matching rules highest first, on a chain whose numbers shift with every deletion, leaves exactly the other rules in their order. |
| FirewallFlush.ListingReads | tnc/tcos-net-controller.c:284-290 | When the listing fits, fgets and split give back the numbers that were listed, all and in order. |
| FirewallFlush.FlushIsFilter | tnc/tcos-net-controller.c:254-305 | Listing, reading, splitting and deleting one by one is the filter, when the listing fits. |
| FirewallFlush.ShortChainFits | tnc/tcos-net-controller.c:254-305 | A chain of at most 255 rules always fits. |
| FirewallCut.FlushIffFits | tnc/tcos-net-controller.c:259-290 | The flush leaves exactly the other rules if and only if the listing fits the line and the token array. |
| FirewallCut.FlushedIffFits | tnc/tcos-net-controller.c:254-305 | The same with the early return for a user without rules. |
| FirewallCut.CutNumberMisses | tnc/tcos-net-controller.c:279-302 | If the last number of the listing is cut short, a rule of the user survives the flush. |
| FirewallCut.CutLeaves | tnc/tcos-net-controller.c:284-297 | A flush whose listing does not fit always leaves a rule it should delete. |
| FirewallCut.LongChainCut | tnc/tcos-net-controller.c:284-290 | The listing of a user with more than 255 rules does not fit. |
| FirewallCut.PerformIffFits | tnc/tcos-net-controller.c:499-527 | Every command does what it is to do if and only if its listings are complete; for a disable that flushes twice: the second listing, and the first flush has hit no one else. |
| FirewallCut.RunFits | tnc/tcos-net-controller.c:499-538 | A run does at every point what its commands are to do if and only if the listings of all of them are complete. |
| FirewallPorts.RunPortsSafe | tnc/tcos-net-controller.c:122-153 | From a chain where tagged rules block ports in 1..65535 other than 8998 and 8999 only, every chain of a run is one, cut listings included, if and only if no command gets a range with one of the two through the check. |
| FirewallPorts.AcceptedRanges | tnc/tcos-net-controller.c:342-361 | Of what gets through the check and iptables takes, the first port may be blocked. |
| FirewallPorts.AcceptedSafeIff | tnc/tcos-net-controller.c:122-153 | A range that gets through is safe as a whole if and only if it meets neither 8998 nor 8999. |
| FirewallPorts.RangeSlips | tnc/tcos-net-controller.c:131-131 | 80:9000 gets through the check, which reads 80, and blocks both forbidden ports. |
| FirewallPorts.RangeText | tnc/tcos-net-controller.c:353-353 | What a range is read as: a:b, a: up to 65535, :b from 0, and none at all when a is greater than b. |
| FirewallFrames.FlushFrameIff | tnc/tcos-net-controller.c:254-305 | A flush leaves the rules of all others what and where they are if and only if the last number read is a whole one or names a rule of the user all the same. |
| FirewallFrames.FlushSteps | tnc/tcos-net-controller.c:284-297 | What a flush deletes: the listed numbers from the top, all whole but the last, which may be a shorter and then smaller one. |
| FirewallFrames.PerformFrameIff | tnc/tcos-net-controller.c:254-406 | The chain a command leaves, seen through any filter that hides the rules the command selects, is the chain before if and only if no flush of the command reads a cut number that names a rule behind the filter. |
| FirewallFrames.RunFrame | tnc/tcos-net-controller.c:254-406 | Over any run of the program the rules no named user owns keep content and order if and only if no flush on the way reads a cut number that names one of them. |
| FirewallFrames.FitsMisses | tnc/tcos-net-controller.c:254-406 | With complete listings that never happens. |
| FirewallFrames.CutHits | tnc/tcos-net-controller.c:284-297 | A user who owns the rules 1000 to 1204 of a chain: the flush leaves rule 1000 and deletes rule 100, whoever owns it. |
| FirewallFrames.CutHitsOther | tnc/tcos-net-controller.c:284-297 | A chain of 1204 rules on which the flush for one user deletes a rule of another. |
| FirewallPorts.DportIsAtoi | tnc/tcos-net-controller.c:131-131 | The check reads a text with atoi: of what iptables takes, numeral or range, that is the first port. |
| FirewallPorts.AcceptedBlockable | tnc/tcos-net-controller.c:342-361 | Given no ranges, only ports that may be blocked get through the check. |
| FirewallPorts.AcceptedComplete | tnc/tcos-net-controller.c:342-361 | No text whose first port may be blocked is left out. |
| FirewallPorts.AcceptedInOrder | tnc/tcos-net-controller.c:342-361 | The accepted ports keep the order in which they were given. |
| FirewallTheory.DisableIdempotent | tnc/tcos-net-controller.c:309-406 | A second identical disable changes nothing. |
| FirewallTheory.DisableReported | tnc/tcos-net-controller.c:229-250 | After a full disable status says disabled if and only if the user is one iptables knows. |
| FirewallTheory.EnableUndoesDisable | tnc/tcos-net-controller.c:499-527 | A full enable after any disable of the same user gives the chain without the user's rules, and status then says enabled. |
| FirewallTheory.EnableReported | tnc/tcos-net-controller.c:520-527 | Enable always answers enabled; status contradicts it exactly when tcp rules alone were flushed and the user had another one. |
| FirewallTheory.DisableVerdict | tnc/tcos-net-controller.c:342-402 | First-match meaning of a full disable for every packet of the user: listed tcp ports dropped even on the loopback, other loopback traffic accepted, traffic out of the network dropped, the rest left to the policy. |
| FirewallFrames.OthersUnaffected | tnc/tcos-net-controller.c:254-406 | A run of the program whose cut numbers hit no one else changes no verdict on a packet whose owner none of its commands selects. |
| FirewallVerdicts.PortsVerdict | tnc/tcos-net-controller.c:311-361 | First-match meaning of a ports-only disable for every packet of the user on any chain: an earlier verdict stands, otherwise listed tcp ports are dropped and the rest is left to the policy. |
| FirewallVerdicts.PortsMeaning | tnc/tcos-net-controller.c:311-361 | The same in full when no rule of anyone else decides: what a confinement from before and the new port blocks do to every packet. |
| FirewallVerdicts.PortsOnLoopbackIff | tnc/tcos-net-controller.c:311-361 | A ports-only disable drops a listed port on the loopback if and only if the user has no confinement from before. |
| FirewallVerdicts.RunVerdict | tnc/tcos-net-controller.c:254-406 | After any run of the program with complete listings: the verdict on every packet of a user on whom no one else's rule decides at the start, from the ports blocked, the confinement and which of the two stands first. |
| FirewallVerdicts.RunSilent | tnc/tcos-net-controller.c:309-406 | No run of commands for users who are apart makes someone else's rule decide about a packet of this user. |
| FirewallVerdicts.ShapedVerdict | tnc/tcos-net-controller.c:342-402 | That meaning is the first-match verdict of the user's own rules, in both orders they can stand in. |
| FirewallTheory.PortsBehindLoopback | tnc/tcos-net-controller.c:311-361 | A case of PortsOnLoopbackIff that holds on any chain: a ports-only disable right after a full one leaves the loopback open. |
| FirewallRuns.ProgramView | tnc/tcos-net-controller.c:254-406 | With complete listings: what a user sees of the chain after a run of everybody's commands is a run of the user's own commands on what the user saw before. |
| FirewallRuns.ApartIff | tnc/tcos-net-controller.c:268-274 | Two known users whose names are no numerals never select a common rule if and only if their numbers differ. |
| FirewallRuns.ProgramShaped | tnc/tcos-net-controller.c:309-406 | With complete listings: over any run of any users' commands a user's rules are port blocks and at most one confinement, one group in front of the other. |
| FirewallRuns.LastFullDisableWins | tnc/tcos-net-controller.c:309-406 | On any chain, whatever came before: after a full disable the rules of the user are one DROP per accepted port or range, ACCEPT loopback, DROP outside the network, if and only if the listing of its flush fits. |
| FirewallRuns.FlushedView | tnc/tcos-net-controller.c:254-305 | A full flush leaves no rule of the user if and only if its listing fits. |
| DottedQuad.CheckIpAddress | xmlrpc/common.c:30-51 | Accepts exactly the decimal prints of four machine integers joined by dots, whatever the uninitialised fields held, and then holds those integers after a full scan. |
| DottedQuad.ScanPrinted | xmlrpc/common.c:38-40 | Scanning a print reaches its end and gives the four integers back, from any old field contents. |
| CText.StrtolReads | xmlrpc/common.c:38-38 | Blanks, a sign of either kind or none, and digits are read as the number, and reading stops behind the digits. |
| CText.StrtolNothing | xmlrpc/common.c:38-38 | Where no digits follow, nothing is read. |
| DottedQuad.GarbageDoesNotMatter | xmlrpc/common.c:30-51 | Two checks of one text agree, though the stack contents differ. |
| DottedQuad.PrintFits | xmlrpc/common.c:40-40 | The reprint has at most 47 characters, so the buffer never cuts it. |
| DottedQuad.OutOfRangePasses | xmlrpc/common.c:30-51 | A concrete text that is no address and passes. |
| Base64.Base64Encode | xmlrpc/common.c:155-198 | A fresh buffer of the allocated size holds the encoding and its terminator, never beyond its end. |
| Base64.PutBlocks | xmlrpc/common.c:173-179 | The loop over blocks of three leaves at most two bytes, and what it wrote with the encoding of those is the whole encoding. |
| Base64.PutTail | xmlrpc/common.c:181-192 | The tail writes exactly the padded encoding of the bytes left over. |
| Base64.CapacityEnough | xmlrpc/common.c:162-164 | The allocation is larger than every encoding. |
| Base64.BuildTable | xmlrpc/common.c:216-219 | The 256 entries are the inverse of the alphabet, 0 for the pad, the mark 0x80 for every other byte. |
| Base64.CountKnown | xmlrpc/common.c:221-225 | The first pass counts exactly the bytes the second will not skip. |
| Base64.DecodeGroups | xmlrpc/common.c:235-250 | The second pass fills the whole buffer with the decoded groups, never writes beyond it, and ends holding the last four bytes it did not skip. |
| Base64.Base64Decode | xmlrpc/common.c:210-261 | Fails exactly when the bytes not skipped are no multiple of four; otherwise a fresh buffer of count/4*3 bytes starts with the decoding, the trim never going below zero. |
| Base64Theory.DecodeEncode | xmlrpc/common.c:155-261 | Decoding an encoding gives the data back, for every byte string of every length. |
| Base64Theory.EncodeDecode | xmlrpc/common.c:155-261 | Encoding a decoding gives the text back if and only if the text is canonical: no foreign byte, pads at the end only, zero pad bits. |
| Base64Theory.EncodeShape | xmlrpc/common.c:155-198 | Every encoding is canonical, has length 4*ceil(n/3), and its pads count the bytes missing from the last group. |
| Base64Text.EncodeIsBits | xmlrpc/common.c:172-194 | Letter i of an encoding is the character of A-Z a-z 0-9 + / at the number that bits 6i to 6i+5 of the data spell, zeros behind the data; there are ceil(8n/6) letters, then only "=" up to a multiple of four. |
| Base64Text.OneByte | xmlrpc/common.c:172-194 | The one byte 77 is encoded as "TQ==". |
| Base64Text.DecodeIsBits | xmlrpc/common.c:216-257 | A text decodes if and only if its characters of the alphabet and "=" are a multiple of four; the data are the bits of their positions, without two bytes when the third place of the last group is "=", else without one when the fourth is. |
| Base64Text.KnownIsKept | xmlrpc/common.c:221-240 | The decoder skips exactly the bytes that are neither in the alphabet nor "=". |
| Base64Text.TableIs | xmlrpc/common.c:216-219 | The table has for every byte its position in the alphabet, 0 for "=", 128 for all others. |
| Base64Theory.ForeignBytesSkipped | xmlrpc/common.c:237-240 | Foreign bytes inserted anywhere make no difference to the decoder. |
| Base64Theory.DecodeOfKnown | xmlrpc/common.c:221-240 | Decoding a text is decoding it with every byte outside alphabet and pad removed. |
| Base64Theory.LonePadDropsTwo | xmlrpc/common.c:252-257 | A pad in the third place alone drops two bytes: a text that decodes without being canonical. |
| Tokens.Split | xmlrpc/common.c:269-302 | At most 255 tokens, the first ones strtok gives, in order. |
| Tokens.RunsExact | xmlrpc/common.c:286-298 | The tokens are exactly the maximal non-empty delimiter-free stretches of the text, from left to right. |
| Tokens.SplitJoined | xmlrpc/common.c:269-302 | Splitting a delimiter-joined list of non-empty delimiter-free tokens gives the list back. |
| Tokens.SplitTerminated | tnc/tcos-net-controller.c:75-108 | The same for tokens each followed by the delimiter, as the listing of rule numbers comes. |
| LineLexer.SplitLine | tmixer/tmixer-alsa.c:1769-1808 | In place: the words are those of the pure lexer on the text the buffer held; they lie in the buffer in order, disjoint, each with its terminator, and nothing behind the text is written. |
| LineLexer.CopyWord | tmixer/tmixer-alsa.c:1785-1804 | The write cursor never passes the read cursor, the word is copied whole, and neither the text ahead nor the text in front of the word is overwritten. |
| LineLexer.PutWord | tmixer/tmixer-alsa.c:1784-1805 | Terminating the word ends the unread text only when the terminator falls under the reader. |
| LineLexer.SkipBlank | tmixer/tmixer-alsa.c:1775-1776 | The cursor moves to the first character that is no blank and stays inside the string. |
| LexerTheory.QuotedRoundTrip | tmixer/tmixer-alsa.c:1769-1808 | Lexing a line of words in double quotes, quotes and backslashes escaped, gives the words back, the first max_token of them, empty ones and comment-like ones included. |
| LexerForms.LineReads | tmixer/tmixer-alsa.c:1769-1808 | Words each written in a form of its own (bare, in single quotes, in double quotes, or with backslashes), any blanks between and around them, a newline or a comment behind: the lexer gives the words back, the first max_token of them. |
| LexerForms.ReadWritten | tmixer/tmixer-alsa.c:1785-1805 | One word in any of the forms is read as the word, and reading stops at what ends it. |
| LexerForms.QuotedName | tmixer/tmixer-alsa.c:1785-1805 | A name in quotes of either kind between two bare words is one word, blanks included. |
| LexerTheory.OneLineIsPlain | tmixer/tmixer-alsa.c:1812-1822 | On every line fgets delivers, the in-place lexer is the plain quote-and-escape lexer. |
| LexerTheory.LexIsLineIff | tmixer/tmixer-alsa.c:1769-1808 | On any text the two agree if and only if at the first word copied in place up to a newline the tokens are used up or what follows ends the line. |
| LexerTheory.SecondLine | tmixer/tmixer-alsa.c:1784-1805 | A text of two lines, as fgets never delivers it, on which the two differ. |
| ControlIds.ParseControlId | tmixer/tmixer-alsa.c:969-1064 | The loop over fields computes the parser function and ends on every input. |
| ControlIds.DoReadField | tmixer/tmixer-alsa.c:978-1055 | One field: key, value, the place behind it, and refusal of a bad interface or number. |
| ControlIds.DoReadName | tmixer/tmixer-alsa.c:1013-1039 | A name ends at its own quote, or at a comma when unquoted; the first 64 characters are collected. |
| ControlIds.Collect | tmixer/tmixer-alsa.c:1020-1036 | Exactly the text in front of the stop character is passed, its beginning kept. |
| ControlIds.ReadFieldShrinks | tmixer/tmixer-alsa.c:977-1062 | No field moves the cursor back; with the comma behind it every round consumes a character. |
| ControlIdTheory.RoundTripIff | tmixer/tmixer-alsa.c:437-453 | Parsing what the printer shows gives the identifier back for the stated identifiers and for no other. This holds of the characters the parser collects, 64 at most: the quoted branch hands them to the library without a terminator, and the library keeps fewer, which is not part of this model. |
| ControlIdForms.ShowIs | tmixer/tmixer-alsa.c:437-453 | What is printed, from left to right. |
| ControlIdForms.EntriesParse | tmixer/tmixer-alsa.c:969-1064 | Fields in any order, keys and interfaces in any letter case, names bare or in either quotes, are all read; later ones overwrite earlier ones; what no field names is 0, empty, and MIXER. |
| ControlIdForms.FieldEnds | tmixer/tmixer-alsa.c:1057-1062 | A comma behind the last field is passed; a text that starts no field is refused. |
| ControlIdForms.NoIface | tmixer/tmixer-alsa.c:990-1012 | An interface that is none of the six is refused. |
| ControlIdTheory.ParsedName | tmixer/tmixer-alsa.c:969-1064 | A name the parser reads holds fewer letters m than the text it is read from, since its key takes one; so a name with an apostrophe cannot come back. |
| ControlIds.ParseSimpleId | tmixer/tmixer-alsa.c:1066-1112 | Name, optional index, and refusal of what follows otherwise, by two loops with a 127-character buffer. |
| ControlIdForms.SimpleForms | tmixer/tmixer-alsa.c:1066-1112 | A name alone, bare or in quotes of either kind, has index 0; with a comma and a number it has that index; a comma without a number is refused. Of the name 127 characters are kept. |
| ControlIdForms.QuotedName | tmixer/tmixer-alsa.c:1085-1106 | Behind a closing quote only the end or a comma with a number is taken. |
| ControlIdForms.OpenName | tmixer/tmixer-alsa.c:1085-1100 | Without the closing quote all that follows is name, with index 0. |
| ControlIdForms.SimpleBlanks | tmixer/tmixer-alsa.c:1072-1075 | Blanks in front do not count, and nothing but blanks is refused, by both parsers. |
| ControlIdTheory.SimpleRoundTripIff | tmixer/tmixer-alsa.c:1676-1679 | A printed simple identifier is read back if and only if its name has no apostrophe and fewer than 128 characters and its index fits an int. |
| ControlIdForms.ShowSimpleIs | tmixer/tmixer-alsa.c:1676-1679 | The printed simple identifier. |
| Percent.CheckRange | tmixer/tmixer-alsa.c:172-173 | Clamps into the range unless checking is off, and leaves values of the range alone. |
| Percent.SetThenShow | tmixer/tmixer-alsa.c:198-213 | The percentage shown after setting p is at least p, less than p + 100/range + 1/2, and equal to p when the range is 200 or more. |
| Percent.SetThenShowIff | tmixer/tmixer-alsa.c:198-213 | For every percentage and every range: the percentage shown equals the one set if and only if what ceil added is below half a percent, or is half a percent and the percentage is even. |
| Percent.SetThenShowDrifts | tmixer/tmixer-alsa.c:198-213 | 33 percent of a range of 197 is shown as 34. |
| Percent.ReapplyIff | tmixer/tmixer-alsa.c:198-213 | Re-applying what is shown moves every level by 0 or 1 upwards if and only if the range is below 200. |
| Percent.ReapplyStays | tmixer/tmixer-alsa.c:198-213 | Below 200 a level stays or goes up one step. |
| Percent.ReapplyFalls | tmixer/tmixer-alsa.c:198-213 | From 200 on the level above the minimum falls back to the minimum. |
| Percent.Ends | tmixer/tmixer-alsa.c:198-213 | 0 and 100 percent are exactly minimum and maximum, both ways. |
| Percent.LevelMonotone | tmixer/tmixer-alsa.c:212-213 | A higher percentage never sets a lower level. |
| Percent.PercentMonotone | tmixer/tmixer-alsa.c:198-208 | A higher level never shows a lower percentage. |
| Percent.LevelInRange | tmixer/tmixer-alsa.c:212-213 | 0 to 100 percent sets a level of the range. |
| Percent.LevelBounds | tmixer/tmixer-alsa.c:212-213 | The level of a percentage is the lowest one that is not below it. |
| Percent.ShownIsNearest | tmixer/tmixer-alsa.c:198-208 | The percentage shown is the nearest one to the level, of two the even one. |
| Percent.OneLevel | tmixer/tmixer-alsa.c:198-213 | A range of one level shows 0 and is left by no percentage. |
| Percent.PercentInRange | tmixer/tmixer-alsa.c:198-208 | A level of the range shows 0 to 100 percent. |
| MixerSet.GetInteger | tmixer/tmixer-alsa.c:239-265 | With checking on, whatever the text, the value lies in the range. |
| MixerCodes.IntegerReads | tmixer/tmixer-alsa.c:239-265 | A written number, with or without sign, fraction and percent sign, is read as its value or its percentage of the range, clamped; one comma behind it is passed. |
| MixerCodes.NoInteger | tmixer/tmixer-alsa.c:244-247 | Without a number the value is the minimum, and only a colon is passed. |
| MixerTheory.NumberReads | tmixer/tmixer-alsa.c:364-384 | A number written with or without sign, fraction and unit is read back as what it means, and reading stops behind the unit: a percentage keeps its fraction, a raw level drops it. |
| MixerElement.GetBoolSimple | tmixer/tmixer-alsa.c:407-419 | The switch the word asks for, else the old one, and the place behind word and separator. |
| MixerElement.SimpleSkipWord | tmixer/tmixer-alsa.c:421-435 | A word is passed with its separator, or nothing moves. |
| MixerCodes.WordPassed | tmixer/tmixer-alsa.c:407-435 | A word in any letter case and with any ending, behind a colon or none, is passed up to and with its comma or colon, by both readers of words. |
| MixerElement.ReadMask | tmixer/tmixer-alsa.c:1301-1315 | The first matching channel word gives the mask; without one the old mask and the whole text stay. |
| MixerElement.ReadDirection | tmixer/tmixer-alsa.c:1317-1332 | A text that begins with playback, or that is capture and nothing more, selects that direction alone; any other keeps both selection and text. |
| MixerWords.SsetPlaybackNumber | tmixer/tmixer-alsa.c:1380-1500 | playback and a number in one argument: capture stays, every playback channel goes to that percentage. |
| MixerWords.SsetPlaybackThen | tmixer/tmixer-alsa.c:1380-1500 | playback and a number in two arguments: the same. |
| MixerCapture.CaptureSelectsIff | tmixer/tmixer-alsa.c:1323-1324 | Of texts that do not begin with playback, exactly the seven letters capture turn playback off; every other one is left whole. |
| MixerCapture.CaptureAlone | tmixer/tmixer-alsa.c:1395-1397 | The argument capture alone sets the direction for what follows and does nothing else. |
| MixerCapture.SsetCaptureNumber | tmixer/tmixer-alsa.c:1380-1500 | capture and then a number: playback stays, every capture channel gets the raw level. |
| MixerCapture.RoundsCapList | tmixer/tmixer-alsa.c:1438-1454 | A word that starts with cap, a comma and a list of numbers: the first channel used reads the word, which turns its capture switch on; for both directions the list starts at the next channel. |
| MixerCapture.SsetCapList | tmixer/tmixer-alsa.c:1380-1500 | The same for a whole sset command, capture and a list among them. |
| MixerCapture.CaptureFifty | tmixer/tmixer-alsa.c:1317-1332 | capture,50: playback channel 1 ends at 50 percent and the capture switch of channel 0 is on. |
| MixerElement.SimpleElement.SetVolumeSimple | tmixer/tmixer-alsa.c:344-405 | The new level of the one channel, the text left and success, for absolute, percent and relative forms; the other direction is untouched. |
| MixerCodes.VolumeReads | tmixer/tmixer-alsa.c:344-405 | For any written number, raw or percent, negative or not, absolute or a step: the one level that changes and its value, the text left, and success exactly where there is a volume. |
| MixerCodes.DecibelRefused | tmixer/tmixer-alsa.c:376-384 | A number in decibels sets nothing and fails without a decibel scale. |
| MixerElement.SimpleElement.Take | tmixer/tmixer-alsa.c:1407-1483 | One direction of one channel: the chain of tests, in order, with the percent sign a playback number appends to its text. |
| MixerElement.SimpleElement.ChannelRound | tmixer/tmixer-alsa.c:1404-1496 | Playback, then capture from where playback began, then back to the start unless the text is a list. |
| MixerElement.SimpleElement.ChannelLoop | tmixer/tmixer-alsa.c:1400-1497 | All 32 channels in turn, stopping when neither direction understands the text. |
| MixerElement.SimpleElement.OneArgument | tmixer/tmixer-alsa.c:1388-1497 | Words in front, then the channels; the element, the selection and the longer text afterwards. |
| MixerElement.SimpleElement.SsetChannels | tmixer/tmixer-alsa.c:1380-1500 | Element, return code and the whole buffer after all arguments, each of them read as the earlier ones have left it in the buffer they share. |
| MixerCodes.NumberCode | tmixer/tmixer-alsa.c:1380-1500 | A number returns 1 if and only if some channel has a volume for it, else -1, or 0 with errors ignored. |
| MixerCodes.SsetUnknown | tmixer/tmixer-alsa.c:1481-1493 | A text no direction understands changes nothing; where both directions have channels it ends the command with 0, whatever follows. |
| MixerLineTheory.ArgumentGrows | tmixer/tmixer-alsa.c:1435-1435 | An argument keeps its text and gains percent signs behind it, at most one for each channel. |
| MixerLineTheory.NextString | tmixer/tmixer-alsa.c:1435-1435 | What stands behind an argument that grows: untouched if it starts behind the new terminator, otherwise only the percent signs written over it. |
| MixerLineTheory.NextArgument | tmixer/tmixer-alsa.c:1388-1399 | In a line split_line has cut: what every later argument reads after a number has been used by all its playback channels. |
| MixerLineTheory.LineIsArguments | tmixer/tmixer-alsa.c:1388-1498 | Arguments that do not reach each other have the effect they would have as separate strings. |
| MixerLineTheory.SecondLost | tmixer/tmixer-alsa.c:1388-1498 | An argument one blank behind a number used on playback has no effect on the element, whatever it said. |
| MixerTheory.RunInRange | tmixer/tmixer-alsa.c:344-405 | Over any run of sset commands with checking on, each on strings of its own, for any texts, every level of every element stays in its element's range, and ranges and channels stay what they are. |
| MixerLineTheory.LinesInRange | tmixer/tmixer-alsa.c:1380-1500 | The same for runs of command lines whose arguments share their buffer and write over one another. |
| MixerTheory.ArgumentInRange | tmixer/tmixer-alsa.c:1380-1500 | The same for one argument in any state of a command. |
| MixerTheory.ArgumentFrame | tmixer/tmixer-alsa.c:1301-1332 | Channels outside the mask, and directions not selected by the words the argument has, keep levels and switches. |
| MixerTheory.RoundsFrame | tmixer/tmixer-alsa.c:1400-1405 | The channel loop leaves alone what is outside the mask or already passed. |
| MixerTheory.RoundsDirection | tmixer/tmixer-alsa.c:1407-1483 | The channel loop leaves alone the direction that is not selected. |
| MixerTheory.RoundsNumber | tmixer/tmixer-alsa.c:1433-1437 | Every selected playback channel ends at the same level although the text gains a percent sign with each of them. |
| MixerTheory.ArgumentNumber | tmixer/tmixer-alsa.c:1380-1500 | The same for an argument whose words are followed by a number, with the exact text it turns into. |
| MixerTheory.SsetNumber | tmixer/tmixer-alsa.c:1380-1500 | sset with one bare number sets every playback channel to that clamped percentage. |
| MixerTheory.RoundsCapture | tmixer/tmixer-alsa.c:1433-1437 | On capture channels the same number is a raw level until a playback channel has lengthened the text, a percentage from then on. |
| MixerTheory.SsetNumberCapture | tmixer/tmixer-alsa.c:1380-1500 | sset with one bare number: which capture channels get a raw level and which a percentage, and which level. |
| MixerSteps.RoundsStep | tmixer/tmixer-alsa.c:385-399 | A number or a percentage with a sign moves every selected channel of both directions by the same stride, clamped, whatever the text has grown to; no other channel moves. |
| MixerSteps.SsetStep | tmixer/tmixer-alsa.c:1380-1500 | The same for a whole sset command, ranges and channels unchanged. |
| MixerSteps.StepUpDown | tmixer/tmixer-alsa.c:1380-1500 | A step up and the same step down, raw or in percent, restore all levels of a direction if and only if every channel stays within its range or starts at the end it falls back to. |
| MixerSteps.PercentStepIff | tmixer/tmixer-alsa.c:370-399 | sset with a step in percent, up or down: a channel moves by that percentage of the width if and only if the minimum is 0 or, with checking on, the range is one level or both targets lie beyond the same end. |
| MixerSteps.PercentStride | tmixer/tmixer-alsa.c:370-395 | What the code moves by is the percentage of the width plus the minimum of the range. |
| MixerSteps.PercentStepOff | tmixer/tmixer-alsa.c:370-399 | 5%+ at 150 in a range from 100 to 200 gives 200, where 155 is meant. |
| MixerSteps.LevelShift | tmixer/tmixer-alsa.c:212-213 | A percentage sets, in any range, the level it sets in the range from 0 of the same width, moved up by the minimum. |
| MixerSteps.RoundsToggle | tmixer/tmixer-alsa.c:1426-1432 | toggle flips the switch of every selected channel exactly once, changes no other switch and no level, also when only one direction has switches. |
| MixerSteps.SsetToggle | tmixer/tmixer-alsa.c:1380-1500 | The same for a whole sset command. |
| MixerSteps.ToggleTwice | tmixer/tmixer-alsa.c:1380-1500 | Toggling twice changes nothing. |
| MixerTheory.NumberShown | tmixer/tmixer-alsa.c:198-213 | For 0 to 100 the level is not clamped, and the percentage shown afterwards is bounded as in SetThenShow. |
| MixerLists.RoundsList | tmixer/tmixer-alsa.c:1400-1497 | A comma list of numbers: the n-th channel used by either direction gets the n-th number, a raw level, the last number a percentage once playback has appended a sign; channels behind the list keep their levels. |
| MixerLists.SsetList | tmixer/tmixer-alsa.c:1380-1500 | The same for a whole sset command and both directions. |
| MixerLists.SsetListPlayback | tmixer/tmixer-alsa.c:1380-1500 | The same spelled out for a playback channel: raw level, percentage, or no change by its rank among the channels used. |
| MixerLists.RoundsSpent | tmixer/tmixer-alsa.c:1400-1497 | A text of nothing but percent signs changes nothing on any channel. |
| MixerTheory.PlainNumber | tmixer/tmixer-alsa.c:364-399 | Without a unit a number is a level, with a sign behind it a step up or down from the present level. |
| MixerTheory.DigitHasNoWords | tmixer/tmixer-alsa.c:1301-1332 | A text that starts with a digit is taken for neither a channel word nor a direction word. |
| MixerTheory.RoundsWord | tmixer/tmixer-alsa.c:1407-1483 | A switch word sets the switch of every selected channel of its own direction and nothing of the other direction or of the levels. |
| MixerCodes.SsetWord | tmixer/tmixer-alsa.c:1380-1500 | A switch word by itself: the switches of its direction, nothing else, and return code 1 if and only if a channel was there. |
| MixerTheory.ChannelWordReads | tmixer/tmixer-alsa.c:1283-1315 | No word of the channel table is shadowed by an earlier one: each selects its own mask and the text behind it goes on. |
| MixerWords.SsetChannelNumber | tmixer/tmixer-alsa.c:1283-1315 | A channel word and a number in one argument: front left is channel 0, front right 1, rear left 2, rear right 3, center 4, woofer 5, front and rear both sides; these channels go to the percentage, all others stay. |
| MixerWords.SsetChannelThen | tmixer/tmixer-alsa.c:1283-1315 | The same in two arguments. |
| MixerWords.SsetChannelPlayback | tmixer/tmixer-alsa.c:1283-1332 | A channel word, playback and a number: those playback channels and nothing else. |
| MixerEnum.GetEnumItemIndex | tmixer/tmixer-alsa.c:1334-1357 | The first item that stands at the front of the text and ends there at a comma, a newline or the end. |
| MixerEnum.EnumElement.SsetEnum | tmixer/tmixer-alsa.c:1359-1378 | The item afterwards and the return code, over all names of all arguments up to one that is no item. |
| MixerEnum.FindNamed | tmixer/tmixer-alsa.c:1345-1354 | Among separator-free names the item found is the first equal one, never a mere prefix. |
| MixerEnum.LastNameChosen | tmixer/tmixer-alsa.c:1359-1378 | A comma list of item names chooses its last one. |
| MixerEnum.LastListed | tmixer/tmixer-alsa.c:1366-1375 | The same with commas or newlines and any blanks between the names. |
| MixerEnum.UnknownName | tmixer/tmixer-alsa.c:1367-1369 | A name that is no item ends the command, and what was chosen before stays. |
| MountDiff.GetNumLines | udev/mount_listener.c:83-96 | -1 for a file that cannot be opened, else the number of fgets pieces. |
| MountDiff.FindLine | udev/mount_listener.c:207-214 | True if and only if the line is one of the other file. |
| MountDiff.MountListener.ReportExtra | udev/mount_listener.c:204-222 | Reports, in order, exactly the lines of the longer file that the shorter one does not have. |
| MountDiff.MountListener.PrintDev | udev/mount_listener.c:100-126 | One event for the line; the script is called unless the device is an alias under /dev/disk. |
| MountDiff.MountListener.SyncFiles | udev/mount_listener.c:129-160 | The copy becomes the watched file character for character, or stays when that cannot be opened. |
| MountDiff.MountListener.Compare | udev/mount_listener.c:164-226 | Code, reported events and new copy for every pair of files. |
| MountDiff.Watch | udev/mount_listener.c:229-271 | Events and copy after any sequence of looks at the table. |
| MountDiff.LinesConcat | udev/mount_listener.c:90-92 | The fgets pieces of a file, joined, are the file: none lost, none read twice. |
| MountTheory.ShortLine | udev/mount_listener.c:83-96 | A line of at most 4094 characters is one piece with its newline. |
| MountTheory.LongLine | udev/mount_listener.c:83-96 | A longer one is cut behind 4095 characters; the end of the file ends a line. |
| MountTheory.CompareReplays | udev/mount_listener.c:164-226 | Replaying what one compare reports on the saved table gives the current table if and only if the change is monotone. |
| MountTheory.RunReplays | udev/mount_listener.c:229-271 | Over any run the replayed events give the table after every look if and only if every change is monotone, and the copy then has the same lines. |
| MountTheory.AddOrRemoveIsMonotone | udev/mount_listener.c:175-200 | For distinct lines monotone means that lines were only added or only removed. |
| MountTheory.SwapLost | udev/mount_listener.c:180-183 | Three concrete tables: a swap is not reported, the next mount hides it in the copy, and a reader of the events keeps the lost line for good. |
| MountTheory.SavedIsCurrent | udev/mount_listener.c:224-224 | After a change of the number of lines the copy is exact, whatever went unseen before. |
| MountTheory.CallsExact | udev/mount_listener.c:100-126 | The script is called for a device exactly when an event names it and it is no disk alias. |
| MountTheory.CallIs | udev/mount_listener.c:100-126 | The script is called with the first word of the line and "mount" for a line that has come, "umount" for one that has gone, and not at all for /dev/disk/. |
| MountTheory.CallsInOrder | udev/mount_listener.c:100-126 | The calls follow the events one by one. |

## Left out

General assumptions

- Allocation succeeds, `malloc(0)` included, sizes do not overflow `size_t`, the locale is "C", and texts hold no NUL.
- Pointers into a C string are modelled as the suffix that starts there, except in the line lexer, the arguments of `sset` and the encoder's and decoder's output, which work on arrays.
- The file `tnc/tcos-net-controller.c` trusts fixed command buffers; user, port and interface texts are taken to fit them.

Network controller

- iptables, awk, tac, tr, `ip route` and popen are foreign: the chain offers listing, `-A` and `-D n` only, an empty listing gives no tokens, and popen never fails.
- FirewallControl.OutputChain.AddUser: an interface without a kernel route leaves the network text unset in the program, so a route is required where `--only-ports=no` makes use of it.
- FirewallControl.OutputChain.AppendPort: port texts other than a plain decimal numeral up to 65535, or a range of two with either missing, count as refused by iptables (service names, numerals with leading zeros or in other bases), as do owners that are neither a known name nor a canonical numeral.
- Arguments shorter than the 13 or 8 characters of their option prefix are read beyond their end by the program; here they mean "not no" and "no ports".
- Routes and interface addresses (`route-add`, `route-del`, `ip`) and the group check behind the permission enter as parameters.

XML-RPC daemon

- The method handlers, login, xauth, shadow and file handling around the three functions.
- `dtable` is a function from bytes to bytes instead of a 256-entry array, the decoder's `in` and `block` are sequences of four.

Mixer

- ControlIds.DoReadName: the quoted branch of the program writes no terminator, so the name is taken to be the collected characters; the 64-character unquoted name that puts its terminator behind the buffer and ALSA's own limit on names are not modelled.
- MixerTheory.NumberReads: numbers are exact reals and unbounded integers; rounding of doubles and conversion of values beyond `long` are not modelled.
- MixerElement.SimpleElement.SetVolumeSimple: the decibel scale is taken to be absent, so decibel amounts are refused, and the library's setters do not fail.
- MixerElement.SimpleElement.SsetChannels: the buffer has room for every argument as it grows; what the program overwrites beyond its end is not modelled.
- MixerElement.SimpleElement.Take: joined controls are not modelled.
- MixerEnum.GetEnumItemIndex: items have readable names, and the 39-character cut of longer ones belongs to the library.
- `decode_tlv` steps its container with the outer length and passes children a size without the header, so there is no behaviour to prove.
- `cset`, `show_selem`, the event loops, the decibel printing and `tmixer-oss.c`.

Mount listener

- MountDiff.MountListener.Compare: every line has a character other than a space, since the program takes the first token without looking whether there is one; the two files do not change while they are compared.
- MountDiff.MountListener.SyncFiles: the copy can always be opened for writing.
- The presence of the save-udev script, the cut of its command line, poll and the sleeps between looks.

Elsewhere

- Shell hooks, build scripts, packaging, `configurexorg`, the lockscreens and the Python and dbus scripts.

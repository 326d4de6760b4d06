/**
 * The argument strings and pointers that sys_execv (kern/syscall/proc_syscalls.c:391-450) and runprogram
 * (kern/syscall/runprogram.c:134-169) leave on the new user stack.
 */
module Argv {
  const ARG_MAX_LEN := 1024
  const USERSPACETOP := 0x8000_0000

  type byte = b: int | 0 <= b < 256
  type Memory = map<nat, byte>

  datatype Errno = Success | ENAMETOOLONG | EFAULT

  predicate IsString(s: seq<byte>) {
    forall k | 0 <= k < |s| :: s[k] != 0
  }

  /** ROUNDUP(n, 4). */
  function RoundUp4(n: nat): (r: nat)
    ensures n <= r < n + 4 && r % 4 == 0
  {
    (n + 3) / 4 * 4
  }

  /** The stack space one argument takes. */
  function Room(s: seq<byte>): (r: nat)
    ensures |s| + 1 <= r && r % 4 == 0
  {
    RoundUp4(|s| + 1)
  }

  /** That is its length with the terminator, and less than a word more. */
  lemma RoomIs(s: seq<byte>)
    ensures |s| + 1 <= Room(s) < |s| + 1 + 4 && Room(s) % 4 == 0
  {
  }

  function TotalRoom(args: seq<seq<byte>>): nat {
    if args == [] then 0 else TotalRoom(args[..|args| - 1]) + Room(args[|args| - 1])
  }

  function ByteAt(mem: Memory, a: nat): byte {
    if a in mem then mem[a] else 0
  }

  ghost predicate SameOutside(mem: Memory, mem': Memory, lo: nat, hi: nat) {
    forall a: nat | a < lo || a >= hi :: ByteAt(mem', a) == ByteAt(mem, a)
  }

  /** The C string at address a is s. */
  ghost predicate StringAt(mem: Memory, a: nat, s: seq<byte>) {
    IsString(s) && (forall k | 0 <= k < |s| :: ByteAt(mem, a + k) == s[k]) && ByteAt(mem, a + |s|) == 0
  }

  /** The 32-bit big-endian word at address a. */
  function WordAt(mem: Memory, a: nat): nat {
    ByteAt(mem, a) * 0x100_0000 + ByteAt(mem, a + 1) * 0x1_0000 + ByteAt(mem, a + 2) * 0x100 + ByteAt(mem, a + 3)
  }

  lemma StringFrame(mem: Memory, mem': Memory, a: nat, s: seq<byte>, lo: nat, hi: nat)
    requires StringAt(mem, a, s) && SameOutside(mem, mem', lo, hi) && (hi <= a || a + |s| < lo)
    ensures StringAt(mem', a, s)
  {
  }

  /** The address is not one of the stack, which is mapped from base up to the kernel's half of the address space. */
  predicate Faults(a: nat, base: nat) {
    a < base || a >= USERSPACETOP
  }

  /** A 32-bit address n bytes further down. */
  function Down(sp: nat, n: nat): nat {
    (sp - n) % 0x1_0000_0000
  }

  /** Unless the address is on the stack, going down left it, and a kernel string is too short to come round again. */
  lemma DownFaults(sp: nat, n: nat, base: nat)
    requires base <= sp <= USERSPACETOP && 0 < n <= USERSPACETOP
    ensures Faults(Down(sp, n), base) <==> base + n > sp
    ensures base + n <= sp ==> Down(sp, n) == sp - n
  {
  }

  /** copyoutstr to address a: faults on its first byte, or copies the string and its terminator if they fit. */
  method CopyOutStr(mem: Memory, s: seq<byte>, a: nat, base: nat) returns (err: Errno, mem': Memory)
    requires IsString(s)
    ensures err == (if Faults(a, base) then EFAULT else if |s| + 1 <= ARG_MAX_LEN then Success else ENAMETOOLONG)
    ensures err == Success ==> StringAt(mem', a, s) && SameOutside(mem, mem', a, a + |s| + 1)
  {
    mem' := mem;
    if Faults(a, base) {
      return EFAULT, mem;
    }
    if |s| + 1 > ARG_MAX_LEN {
      return ENAMETOOLONG, mem;
    }
    for i := 0 to |s|
      invariant SameOutside(mem, mem', a, a + i) && forall k | 0 <= k < i :: ByteAt(mem', a + k) == s[k]
    {
      mem' := mem'[a + i := s[i]];
    }
    mem' := mem'[a + |s| := 0];
    err := Success;
  }

  lemma WordBytes(w: nat, b0: nat, b1: nat, b2: nat, b3: nat)
    requires w < 0x1_0000_0000
    requires b0 == w / 0x100_0000 && b1 == w / 0x1_0000 % 0x100 && b2 == w / 0x100 % 0x100 && b3 == w % 0x100
    ensures b0 < 256 && b1 < 256 && b2 < 256 && b3 < 256
    ensures b0 * 0x100_0000 + b1 * 0x1_0000 + b2 * 0x100 + b3 == w
  {
    var x, y := w / 0x100, w / 0x1_0000;
    assert w == x * 0x100 + b3 && x / 0x100 == y && x == y * 0x100 + b2;
    assert y / 0x100 == b0 && y == b0 * 0x100 + b1;
  }

  /** copyout of a pointer. */
  method CopyOutWord(mem: Memory, w: nat, a: nat, base: nat) returns (err: Errno, mem': Memory)
    requires w < 0x1_0000_0000
    ensures err == if Faults(a, base) then EFAULT else Success
    ensures err == Success ==> WordAt(mem', a) == w && SameOutside(mem, mem', a, a + 4)
  {
    if Faults(a, base) {
      return EFAULT, mem;
    }
    err := Success;
    var b0, b1, b2, b3 := w / 0x100_0000, w / 0x1_0000 % 0x100, w / 0x100 % 0x100, w % 0x100;
    WordBytes(w, b0, b1, b2, b3);
    mem' := mem[a := b0];
    mem' := mem'[a + 1 := b1];
    mem' := mem'[a + 2 := b2];
    mem' := mem'[a + 3 := b3];
  }

  /** Argument j, already on the stack, sits whole between sp and top at its 4-aligned pointer. */
  ghost predicate ArgAt(mem: Memory, args: seq<seq<byte>>, ptrs: seq<nat>, j: nat, sp: nat, top: nat)
    requires j < |args| && |args| < |ptrs|
  {
    StringAt(mem, ptrs[j], args[j]) && sp <= ptrs[j] && ptrs[j] + Room(args[j]) <= top && ptrs[j] % 4 == 0
  }

  predicate Apart(args: seq<seq<byte>>, ptrs: seq<nat>, j: nat, k: nat)
    requires j < |args| && k < |args| && |args| < |ptrs|
  {
    ptrs[j] + Room(args[j]) <= ptrs[k] || ptrs[k] + Room(args[k]) <= ptrs[j]
  }

  /** The arguments from index lo up to hi are on the stack, in regions that do not overlap. */
  ghost predicate Placed(mem: Memory, args: seq<seq<byte>>, ptrs: seq<nat>, lo: nat, hi: nat, sp: nat, top: nat)
    requires lo <= hi <= |args| && |args| < |ptrs|
  {
    && (forall j: nat | lo <= j < hi :: ArgAt(mem, args, ptrs, j, sp, top))
    && (forall j: nat, k: nat | lo <= j < k < hi :: Apart(args, ptrs, j, k))
  }

  /** Pushing one more argument below the others leaves them alone. */
  lemma PlaceMore(mem: Memory, mem': Memory, args: seq<seq<byte>>, ptrs: seq<nat>, ptrs': seq<nat>, lo: nat, hi: nat,
                  lo': nat, hi': nat, i: nat, sp: nat, top: nat)
    requires lo <= hi <= |args| && |args| < |ptrs| && Placed(mem, args, ptrs, lo, hi, sp, top) && i < |args|
    requires (lo' == lo && hi' == hi + 1 && i == hi) || (lo' + 1 == lo && hi' == hi && i == lo')
    requires Room(args[i]) <= sp <= top && sp % 4 == 0 && ptrs' == ptrs[i := sp - Room(args[i])]
    requires StringAt(mem', sp - Room(args[i]), args[i])
    requires SameOutside(mem, mem', sp - Room(args[i]), sp - Room(args[i]) + |args[i]| + 1)
    ensures Placed(mem', args, ptrs', lo', hi', sp - Room(args[i]), top)
  {
    hide StringAt;
    hide SameOutside;
    hide Room;
    var sp' := sp - Room(args[i]);
    forall j: nat | lo' <= j < hi'
      ensures ArgAt(mem', args, ptrs', j, sp', top)
    {
      if j != i {
        assert ArgAt(mem, args, ptrs, j, sp, top);
        StringFrame(mem, mem', ptrs[j], args[j], sp', sp' + |args[i]| + 1);
      }
    }
    forall j: nat, k: nat | lo' <= j < k < hi'
      ensures Apart(args, ptrs', j, k)
    {
      if j != i && k != i {
        assert Apart(args, ptrs, j, k);
      } else {
        var m := if j == i then k else j;
        assert ArgAt(mem, args, ptrs, m, sp, top);
      }
    }
  }

  lemma RoomLeft(args: seq<seq<byte>>, i: nat)
    requires i < |args|
    ensures TotalRoom(args[..i + 1]) == TotalRoom(args[..i]) + Room(args[i])
  {
    assert args[..i + 1][..i] == args[..i];
  }

  predicate AllFit(args: seq<seq<byte>>) {
    forall i | 0 <= i < |args| :: |args[i]| + 1 <= ARG_MAX_LEN
  }

  predicate AllStrings(args: seq<seq<byte>>) {
    forall i | 0 <= i < |args| :: IsString(args[i])
  }

  /** What both loops over the argument strings achieve. */
  ghost predicate StringsDone(mem: Memory, mem': Memory, args: seq<seq<byte>>, ptrs: seq<nat>, sp: nat, top: nat) {
    && |ptrs| == |args| + 1 && ptrs[|args|] == 0 && Placed(mem', args, ptrs, 0, |args|, sp, top)
    && sp + TotalRoom(args) == top && sp % 4 == 0 && SameOutside(mem, mem', sp, top)
  }

  lemma OutsideWider(mem: Memory, mem1: Memory, mem2: Memory, sp: nat, sp': nat, len: nat, top: nat)
    requires SameOutside(mem, mem1, sp, top) && SameOutside(mem1, mem2, sp', sp' + len) && sp' + len <= sp <= top
    ensures SameOutside(mem, mem2, sp', top)
  {
  }

  /** The strings are in the kernel's half of the address space, so none takes up more than half of it. */
  predicate InKernel(args: seq<seq<byte>>) {
    forall i | 0 <= i < |args| :: Room(args[i]) <= USERSPACETOP
  }

  /** How copying need bytes to a stack from base to top can end. */
  predicate Ends(err: Errno, args: seq<seq<byte>>, need: nat, base: nat, top: nat) {
    match err
    case Success => AllFit(args) && base + need <= top
    case ENAMETOOLONG => !AllFit(args)
    case EFAULT => base + need > top
  }

  /** The loop of sys_execv: last argument first. */
  method ExecvStrings(mem: Memory, args: seq<seq<byte>>, base: nat, top: nat)
    returns (err: Errno, mem': Memory, ptrs: seq<nat>, sp: nat)
    requires AllStrings(args) && InKernel(args) && base <= top <= USERSPACETOP && top % 4 == 0
    ensures Ends(err, args, TotalRoom(args), base, top)
    ensures err == Success ==> StringsDone(mem, mem', args, ptrs, sp, top)
  {
    hide Placed;
    hide SameOutside;
    hide Room;
    hide StringAt;
    hide IsString;
    hide TotalRoom;
    var n := |args|;
    mem', ptrs, sp := mem, seq(n + 1, _ => 0), top;
    err := Success;
    assert args[..n] == args;
    NonePlaced(mem, args, ptrs, n, top);
    var i := n;
    while i > 0
      invariant 0 <= i <= n && |ptrs| == n + 1 && ptrs[n] == 0 && Placed(mem', args, ptrs, i, n, sp, top)
      invariant sp + TotalRoom(args) - TotalRoom(args[..i]) == top && sp % 4 == 0 && base <= sp <= top
      invariant SameOutside(mem, mem', sp, top)
      invariant err == Success && forall j | i <= j < n :: |args[j]| + 1 <= ARG_MAX_LEN
    {
      i := i - 1;
      RoomLeft(args, i);
      ghost var mem1, sp1, ptrs1 := mem', sp, ptrs;
      DownFaults(sp, Room(args[i]), base);
      sp := Down(sp, Room(args[i]));
      err, mem' := CopyOutStr(mem', args[i], sp, base);
      if err != Success {
        return;
      }
      ptrs := ptrs[i := sp];
      PlaceMore(mem1, mem', args, ptrs1, ptrs, i + 1, n, i, n, i, sp1, top);
      OutsideWider(mem, mem1, mem', sp1, sp, |args[i]| + 1, top);
    }
    NoRoom(args[..0]);
  }

  lemma NoRoom(args: seq<seq<byte>>)
    requires args == []
    ensures TotalRoom(args) == 0
  {
  }

  /** The loop of runprogram: first argument first. */
  method RunprogramStrings(mem: Memory, args: seq<seq<byte>>, base: nat, top: nat)
    returns (err: Errno, mem': Memory, ptrs: seq<nat>, sp: nat)
    requires AllStrings(args) && InKernel(args) && base <= top <= USERSPACETOP && top % 4 == 0
    ensures Ends(err, args, TotalRoom(args), base, top)
    ensures err == Success ==> StringsDone(mem, mem', args, ptrs, sp, top)
  {
    hide Placed;
    hide SameOutside;
    hide Room;
    hide StringAt;
    hide IsString;
    var n := |args|;
    mem', ptrs, sp := mem, seq(n + 1, _ => 0), top;
    err := Success;
    NonePlaced(mem, args, ptrs, 0, top);
    for i := 0 to n
      invariant |ptrs| == n + 1 && ptrs[n] == 0 && Placed(mem', args, ptrs, 0, i, sp, top)
      invariant sp + TotalRoom(args[..i]) == top && sp % 4 == 0 && base <= sp && SameOutside(mem, mem', sp, top)
      invariant err == Success && forall j | 0 <= j < i :: |args[j]| + 1 <= ARG_MAX_LEN
    {
      RoomLeft(args, i);
      RoomGrows(args, i + 1);
      ghost var mem1, sp1, ptrs1 := mem', sp, ptrs;
      DownFaults(sp, Room(args[i]), base);
      sp := Down(sp, Room(args[i]));
      err, mem' := CopyOutStr(mem', args[i], sp, base);
      if err != Success {
        return;
      }
      ptrs := ptrs[i := sp];
      PlaceMore(mem1, mem', args, ptrs1, ptrs, 0, i, 0, i + 1, i, sp1, top);
      OutsideWider(mem, mem1, mem', sp1, sp, |args[i]| + 1, top);
    }
    assert args[..n] == args;
  }

  lemma NonePlaced(mem: Memory, args: seq<seq<byte>>, ptrs: seq<nat>, i: nat, top: nat)
    requires i <= |args| && |args| < |ptrs|
    ensures Placed(mem, args, ptrs, i, i, top, top) && SameOutside(mem, mem, top, top)
  {
  }

  lemma {:induction false} RoomGrows(args: seq<seq<byte>>, i: nat)
    requires i <= |args|
    ensures TotalRoom(args[..i]) <= TotalRoom(args)
    decreases |args| - i
  {
    hide Room;
    if i < |args| {
      RoomLeft(args, i);
      RoomGrows(args, i + 1);
    } else {
      assert args[..i] == args;
    }
  }

  /** The pointers from index i on are in memory from sp. */
  ghost predicate PointersAt(mem: Memory, ptrs: seq<nat>, i: nat, sp: nat)
    requires i <= |ptrs|
  {
    forall j: nat | i <= j < |ptrs| :: WordAt(mem, sp + 4 * (j - i)) == ptrs[j]
  }

  /** The second loop, the same in both: the array of pointers below the strings, with its null terminator. */
  method PushPointers(mem: Memory, ptrs: seq<nat>, base: nat, top: nat) returns (err: Errno, mem': Memory, sp: nat)
    requires 4 <= base <= top <= USERSPACETOP && forall j | 0 <= j < |ptrs| :: ptrs[j] < 0x1_0000_0000
    ensures err == if base + 4 * |ptrs| <= top then Success else EFAULT
    ensures err == Success ==>
              sp + 4 * |ptrs| == top && PointersAt(mem', ptrs, 0, sp) && SameOutside(mem, mem', sp, top)
  {
    hide WordAt;
    err, mem', sp := Success, mem, top;
    var i := |ptrs|;
    while i > 0
      invariant 0 <= i <= |ptrs| && sp + 4 * (|ptrs| - i) == top && base <= sp && err == Success
      invariant PointersAt(mem', ptrs, i, sp) && SameOutside(mem, mem', sp, top)
    {
      i := i - 1;
      sp := sp - 4;
      ghost var mem1 := mem';
      err, mem' := CopyOutWord(mem', ptrs[i], sp, base);
      if err != Success {
        return;
      }
      PointersMore(mem1, mem', ptrs, i, sp);
    }
  }

  lemma PointersMore(mem: Memory, mem': Memory, ptrs: seq<nat>, i: nat, sp: nat)
    requires i < |ptrs| && PointersAt(mem, ptrs, i + 1, sp + 4) && SameOutside(mem, mem', sp, sp + 4)
    requires WordAt(mem', sp) == ptrs[i]
    ensures PointersAt(mem', ptrs, i, sp)
  {
    forall j: nat | i <= j < |ptrs|
      ensures WordAt(mem', sp + 4 * (j - i)) == ptrs[j]
    {
      if j > i {
        assert WordAt(mem, sp + 4 + 4 * (j - (i + 1))) == ptrs[j];
      }
    }
  }

  /**
   * What the new program finds: argv[i] is a 4-aligned pointer to the i-th argument, argv[argc] is null, strings
   * and pointers do not overlap and lie between sp and top, and sp is 8-aligned, at most 4 bytes below argv.
   */
  ghost predicate ArgvOk(mem: Memory, args: seq<seq<byte>>, argv: nat, sp: nat, top: nat) {
    && sp % 8 == 0 && sp <= argv <= sp + 4 && argv % 4 == 0 && argv + 4 * (|args| + 1) <= top
    && WordAt(mem, argv + 4 * |args|) == 0
    && (forall i: nat | i < |args| :: ArgOk(mem, args, argv, i, top))
    && (forall i: nat, j: nat | i < j < |args| ::
          || WordAt(mem, argv + 4 * i) + |args[i]| < WordAt(mem, argv + 4 * j)
          || WordAt(mem, argv + 4 * j) + |args[j]| < WordAt(mem, argv + 4 * i))
  }

  ghost predicate ArgOk(mem: Memory, args: seq<seq<byte>>, argv: nat, i: nat, top: nat)
    requires i < |args|
  {
    var p := WordAt(mem, argv + 4 * i);
    StringAt(mem, p, args[i]) && p % 4 == 0 && argv + 4 * (|args| + 1) <= p && p + |args[i]| < top
  }

  lemma Finished(mem0: Memory, mem1: Memory, mem2: Memory, args: seq<seq<byte>>, ptrs: seq<nat>, sp1: nat, argv: nat,
                 top: nat)
    requires StringsDone(mem0, mem1, args, ptrs, sp1, top) && SameOutside(mem1, mem2, argv, sp1)
    requires argv + 4 * |ptrs| == sp1 && PointersAt(mem2, ptrs, 0, argv)
    ensures ArgvOk(mem2, args, argv, argv - argv % 8, top) && SameOutside(mem0, mem2, argv, top)
  {
    hide WordAt;
    hide StringAt;
    hide SameOutside;
    hide Room;
    assert forall i: nat | i <= |args| :: WordAt(mem2, argv + 4 * (i - 0)) == ptrs[i];
    forall i: nat | i < |args|
      ensures ArgOk(mem2, args, argv, i, top)
    {
      assert WordAt(mem2, argv + 4 * (i - 0)) == ptrs[i];
      assert ArgAt(mem1, args, ptrs, i, sp1, top);
      StringFrame(mem1, mem2, ptrs[i], args[i], argv, sp1);
    }
    forall i: nat, j: nat | i < j < |args|
      ensures WordAt(mem2, argv + 4 * i) + |args[i]| < WordAt(mem2, argv + 4 * j)
           || WordAt(mem2, argv + 4 * j) + |args[j]| < WordAt(mem2, argv + 4 * i)
    {
      assert WordAt(mem2, argv + 4 * (i - 0)) == ptrs[i] && WordAt(mem2, argv + 4 * (j - 0)) == ptrs[j];
      assert Apart(args, ptrs, i, j);
    }
    assert WordAt(mem2, argv + 4 * (|args| - 0)) == 0;
    OutsideJoin(mem0, mem1, mem2, argv, sp1, top);
  }

  lemma OutsideJoin(mem0: Memory, mem1: Memory, mem2: Memory, lo: nat, mid: nat, hi: nat)
    requires SameOutside(mem0, mem1, mid, hi) && SameOutside(mem1, mem2, lo, mid) && lo <= mid <= hi
    ensures SameOutside(mem0, mem2, lo, hi)
  {
  }

  lemma PointersBelow(mem0: Memory, mem1: Memory, args: seq<seq<byte>>, ptrs: seq<nat>, sp: nat, top: nat)
    requires StringsDone(mem0, mem1, args, ptrs, sp, top) && top <= 0x1_0000_0000
    ensures forall j | 0 <= j < |ptrs| :: ptrs[j] < 0x1_0000_0000
  {
    hide StringAt;
    hide SameOutside;
    forall j: nat | j < |args|
      ensures ptrs[j] < top
    {
      assert ArgAt(mem1, args, ptrs, j, sp, top);
    }
  }

  /** The argument part of sys_execv, on a stack mapped from base to the top that as_define_stack gives. */
  method Execv(mem: Memory, args: seq<seq<byte>>, base: nat, top: nat)
    returns (err: Errno, mem': Memory, argv: nat, sp: nat)
    requires AllStrings(args) && InKernel(args) && 4 <= base <= top <= USERSPACETOP && top % 4 == 0
    ensures Ends(err, args, TotalRoom(args) + 4 * (|args| + 1), base, top)
    ensures err == Success ==> ArgvOk(mem', args, argv, sp, top) && base <= argv && SameOutside(mem, mem', argv, top)
  {
    hide StringsDone;
    hide PointersAt;
    hide SameOutside;
    hide ArgvOk;
    var mem1, ptrs, sp1;
    err, mem1, ptrs, sp1 := ExecvStrings(mem, args, base, top);
    if err != Success {
      return err, mem, 0, 0;
    }
    Sizes(mem, mem1, args, ptrs, sp1, top);
    PointersBelow(mem, mem1, args, ptrs, sp1, top);
    err, mem', argv := PushPointers(mem1, ptrs, base, sp1);
    if err != Success {
      return err, mem, 0, 0;
    }
    Finished(mem, mem1, mem', args, ptrs, sp1, argv, top);
    sp := argv - argv % 8;
  }

  lemma Sizes(mem0: Memory, mem1: Memory, args: seq<seq<byte>>, ptrs: seq<nat>, sp: nat, top: nat)
    requires StringsDone(mem0, mem1, args, ptrs, sp, top)
    ensures |ptrs| == |args| + 1 && sp + TotalRoom(args) == top
  {
  }

  /** The argument part of runprogram: the strings are in the other order on the stack, and argv says the same. */
  method Runprogram(mem: Memory, args: seq<seq<byte>>, base: nat, top: nat)
    returns (err: Errno, mem': Memory, argv: nat, sp: nat)
    requires AllStrings(args) && InKernel(args) && 4 <= base <= top <= USERSPACETOP && top % 4 == 0
    ensures Ends(err, args, TotalRoom(args) + 4 * (|args| + 1), base, top)
    ensures err == Success ==> ArgvOk(mem', args, argv, sp, top) && base <= argv && SameOutside(mem, mem', argv, top)
  {
    hide StringsDone;
    hide PointersAt;
    hide SameOutside;
    hide ArgvOk;
    var mem1, ptrs, sp1;
    err, mem1, ptrs, sp1 := RunprogramStrings(mem, args, base, top);
    if err != Success {
      return err, mem, 0, 0;
    }
    Sizes(mem, mem1, args, ptrs, sp1, top);
    PointersBelow(mem, mem1, args, ptrs, sp1, top);
    err, mem', argv := PushPointers(mem1, ptrs, base, sp1);
    if err != Success {
      return err, mem, 0, 0;
    }
    Finished(mem, mem1, mem', args, ptrs, sp1, argv, top);
    sp := argv - argv % 8;
  }

  lemma StringUnique(mem: Memory, a: nat, s: seq<byte>, t: seq<byte>)
    requires StringAt(mem, a, s) && StringAt(mem, a, t)
    ensures s == t
  {
    NoLonger(mem, a, s, t);
    NoLonger(mem, a, t, s);
  }

  lemma NoLonger(mem: Memory, a: nat, s: seq<byte>, t: seq<byte>)
    requires StringAt(mem, a, s) && StringAt(mem, a, t)
    ensures |s| <= |t|
  {
    if |t| < |s| {
      StringByte(mem, a, s, |t|);
    }
  }

  lemma StringByte(mem: Memory, a: nat, s: seq<byte>, k: nat)
    requires StringAt(mem, a, s) && k < |s|
    ensures ByteAt(mem, a + k) != 0
  {
    assert ByteAt(mem, a + k) == s[k];
  }

  /** Reading argv back gives the arguments: no other list, of any length, is laid out at the same place. */
  lemma ArgvReadsBack(mem: Memory, args: seq<seq<byte>>, args': seq<seq<byte>>, argv: nat, sp: nat, top: nat)
    requires ArgvOk(mem, args, argv, sp, top) && ArgvOk(mem, args', argv, sp, top)
    ensures args == args'
  {
    hide WordAt;
    hide StringAt;
    NoMoreArgs(mem, args, args', argv, sp, top);
    NoMoreArgs(mem, args', args, argv, sp, top);
    forall i: nat | i < |args|
      ensures args[i] == args'[i]
    {
      assert ArgOk(mem, args, argv, i, top) && ArgOk(mem, args', argv, i, top);
      StringUnique(mem, WordAt(mem, argv + 4 * i), args[i], args'[i]);
    }
  }

  lemma NoMoreArgs(mem: Memory, args: seq<seq<byte>>, args': seq<seq<byte>>, argv: nat, sp: nat, top: nat)
    requires ArgvOk(mem, args, argv, sp, top) && ArgvOk(mem, args', argv, sp, top)
    ensures |args| <= |args'|
  {
    hide WordAt;
    hide StringAt;
    if |args'| < |args| {
      ArgNotNull(mem, args, argv, |args'|, sp, top);
    }
  }

  lemma ArgNotNull(mem: Memory, args: seq<seq<byte>>, argv: nat, i: nat, sp: nat, top: nat)
    requires ArgvOk(mem, args, argv, sp, top) && i < |args|
    ensures WordAt(mem, argv + 4 * i) != 0
  {
    hide WordAt;
    hide StringAt;
    assert ArgOk(mem, args, argv, i, top);
  }
}

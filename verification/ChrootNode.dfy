/**
 The node of a block device in a machine's chroot, which a live attachment makes before it
 turns to QEMU and takes away again when anything fails.
 */
module ChrootNode {

  /** How the surroundings answer: stat on the device, mknod on a free path, chown, and all
      of QEMU's commands together. A node that is already there makes mknod fail. */
  datatype Answers = Answers(stat: bool, mknod: bool, chown: bool, qemu: bool)

  class Chroot {
    var nodes: set<string>

    constructor (nodes: set<string>)
      ensures this.nodes == nodes
    {
      this.nodes := nodes;
    }

    method MakeNode(path: string, a: Answers) returns (ok: bool)
      modifies this
      ensures ok <==> a.stat && a.mknod && path !in old(nodes) && a.chown
      ensures nodes == old(nodes) || nodes == old(nodes) + {path}
      ensures ok ==> path in nodes
    {
      if !a.stat { return false; }
      if path in nodes || !a.mknod { return false; }
      nodes := nodes + {path};
      ok := a.chown;
    }

    /** A failure leaves the chroot as it was if and only if the node was not there before:
        the removal is arranged before it is known whose node it is. */
    method Append(path: string, isBlock: bool, a: Answers) returns (ok: bool)
      modifies this
      ensures isBlock ==> (ok <==> a.stat && a.mknod && a.chown && a.qemu && path !in old(nodes))
      ensures !isBlock ==> (ok <==> a.qemu) && nodes == old(nodes)
      ensures isBlock ==> nodes == if ok then old(nodes) + {path} else old(nodes) - {path}
      ensures isBlock && !ok ==> (nodes == old(nodes) <==> path !in old(nodes))
    {
      ok := true;
      if isBlock {
        ok := MakeNode(path, a);
      }
      ok := ok && a.qemu;
      if isBlock && !ok {
        nodes := nodes - {path};
      }
    }
  }
}
